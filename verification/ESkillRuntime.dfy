/** The skill runtime as a version state machine: static run, patched run, quality gate, then solidify or roll back. */
module ESkillRuntime {
  import opened Basics
  import opened ESkillValues
  import opened ESkillInterpreter
  import opened ESkillPatch
  import opened ESkillGate

  /** A stored version; trigger policy and quality gate are handed on unchanged to the versions solidified from it. */
  datatype Version = Version(logic: Dict, trigger: Dict, gate: Dict)

  datatype Stage = Static | StaticQualityFailed | StaticError | DomainRejected | RolledBack | Dynamic | Solidified

  /** A stored run; `changes` are its patch's, empty without a patch. */
  datatype RunRow = RunRow(input: Dict, stage: Stage, changes: Dict, failed: bool)

  /** One skill: its versions by number, the active number, and its runs in order. */
  datatype Skill = Skill(versions: map<int, Version>, active: int, runs: seq<RunRow>)

  /** The parts of a run that are functions of texts the model does not hold: the gate read from its dict (it raises
      on unreadable numbers), the text of an output, the pattern search, the domain check and the matching of earlier
      runs. */
  datatype Judge = Judge(
    readGate: Dict -> Result<Gate, Fault>,
    textOf: Dict -> string,
    search: (string, string) -> Search,
    inDomain: (Dict, Dict) -> Result<bool, Fault>,
    related: (Dict, Dict) -> bool)

  datatype Request = Request(input: Dict, overrides: Dict, trigger: Dict, gate: Dict, forceDynamic: bool,
                             solidify: bool)

  /** What the caller gets: a finished run with its stage and output, or an exception. */
  datatype Answer = Finished(stage: Stage, output: Dict) | Raised(fault: Fault)

  /** Overrides other than None and "" replace entries. */
  function MergeOverrides(logic: Dict, overrides: Dict): Dict {
    logic + map k | k in overrides && overrides[k] != Null && overrides[k] != Str("") :: overrides[k]
  }

  /** bool(policy.get(key, default)) */
  function Policy(policy: Dict, key: string, default: bool): bool {
    if key in policy then Truthy(policy[key]) else default
  }

  /** The gate's verdict on an output. */
  function Verdict(h: Host, j: Judge, output: Dict, gate: Dict): Result<bool, Fault> {
    match j.readGate(gate)
    case Err(e) => Err(e)
    case Ok(g) =>
      var text := j.textOf(output);
      Ok(Passes(h, output, text, g, j.search(g.regex, text)))
  }

  method CheckGate(h: Host, j: Judge, output: Dict, gate: Dict) returns (r: Result<bool, Fault>)
    ensures r == Verdict(h, j, output, gate)
  {
    match j.readGate(gate) {
      case Err(e) => return Err(e);
      case Ok(g) =>
        var text := j.textOf(output);
        var report := QualityReport(h, output, text, g, j.search(g.regex, text));
        return Ok(report.passed);
    }
  }

  // ----- the patches of earlier successful runs -----

  predicate Successful(r: RunRow) {
    (r.stage.Solidified? || r.stage.Dynamic?) && !r.failed
  }

  /** From the newest of the first n runs down: at most `rows` successful runs are looked at, at most `want` taken. */
  function History(j: Judge, runs: seq<RunRow>, input: Dict, n: nat, rows: nat, want: nat): seq<Dict>
    requires n <= |runs|
  {
    if n == 0 || rows == 0 || want == 0 then []
    else
      var r := runs[n - 1];
      if !Successful(r) then History(j, runs, input, n - 1, rows, want)
      else if j.related(input, r.input) then [r.changes] + History(j, runs, input, n - 1, rows - 1, want - 1)
      else History(j, runs, input, n - 1, rows - 1, want)
  }

  method RetrieveSuccessHistory(j: Judge, runs: seq<RunRow>, input: Dict) returns (matches: seq<Dict>)
    ensures matches == History(j, runs, input, |runs|, 30, 5)
  {
    matches := [];
    var n, rows: nat := |runs|, 30;
    while n > 0 && rows > 0 && |matches| < 5
      invariant 0 <= n <= |runs| && 0 <= rows && |matches| <= 5
      invariant matches + History(j, runs, input, n, rows, 5 - |matches|) == History(j, runs, input, |runs|, 30, 5)
      decreases n
    {
      var r := runs[n - 1];
      if Successful(r) {
        rows := rows - 1;
        if j.related(input, r.input) {
          matches := matches + [r.changes];
        }
      }
      n := n - 1;
    }
  }

  // ----- one dynamic attempt, without its effects -----

  datatype Attempt =
    | Broken(fault: Fault)                              // domain check, adapter, merge or gate raised
    | OutsideDomain
    | ExecutionFailed(changes: Dict)
    | GateFailed(changes: Dict, output: Dict)
    | Passed(changes: Dict, patched: Dict, output: Dict)

  ghost function TryPatch(h: Host, j: Judge, k: nat, runs: seq<RunRow>, logic: Dict, input: Dict, reason: string,
                    error: Option<string>, gate: Dict): Attempt
  {
    match j.inDomain(logic, input)
    case Err(e) => Broken(e)
    case Ok(false) => OutsideDomain
    case Ok(true) =>
      match ProposedChanges(h, reason, logic, input, History(j, runs, input, |runs|, 30, 5), error)
      case Err(e) => Broken(e)
      case Ok(changes) =>
        match Patched(h, logic, changes)
        case Err(e) => Broken(e)
        case Ok(patched) =>
          match ExecuteLogic(h, k, patched, input)
          case Err(_) => ExecutionFailed(changes)
          case Ok(output) =>
            match Verdict(h, j, output, gate)
            case Err(e) => Broken(e)
            case Ok(ok) => if ok then Passed(changes, patched, output) else GateFailed(changes, output)
  }

  // ----- its effects -----

  function Logged(s: Skill, input: Dict, stage: Stage, changes: Dict, failed: bool): Skill {
    s.(runs := s.runs + [RunRow(input, stage, changes, failed)])
  }

  /** The greatest stored version below the given number, among the candidates. */
  ghost predicate IsPrevious(versions: map<int, Version>, below: int, p: int) {
    p in versions && p < below && forall v :: v in versions && v < below ==> v <= p
  }

  function Earlier(versions: map<int, Version>, below: int): set<int> {
    set v | v in versions && v < below
  }

  /** The skill after a roll-back: to the greatest earlier version, or unchanged if there is none. */
  ghost function RolledBackSkill(s: Skill): (r: Skill)
    ensures r == s.(active := r.active)
    ensures if Earlier(s.versions, s.active) == {} then r.active == s.active
            else IsPrevious(s.versions, s.active, r.active)
  {
    var earlier := Earlier(s.versions, s.active);
    if earlier == {} then s
    else
      assert exists p :: p in earlier && forall v :: v in earlier ==> v <= p by {
        var p := GreatestExists(earlier);
      }
      var p :| p in earlier && forall v :: v in earlier ==> v <= p;
      assert IsPrevious(s.versions, s.active, p) by {
        forall v | v in s.versions && v < s.active ensures v <= p {
          assert v in earlier;
        }
      }
      s.(active := p)
  }

  /** Storing a version under a number that is taken violates the unique key, and then nothing of the run is kept. */
  ghost function AfterAttempt(s: Skill, base: Version, input: Dict, a: Attempt, solidify: bool): (Skill, Answer) {
    match a
    case Broken(e) => (s, Raised(e))
    case OutsideDomain => (Logged(s, input, DomainRejected, map[], true), Finished(DomainRejected, map[]))
    case ExecutionFailed(changes) =>
      (Logged(RolledBackSkill(s), input, RolledBack, changes, true), Finished(RolledBack, map[]))
    case GateFailed(changes, output) =>
      (Logged(RolledBackSkill(s), input, RolledBack, changes, true), Finished(RolledBack, output))
    case Passed(changes, patched, output) =>
      if !solidify then (s, Finished(Dynamic, output))
      else if s.active + 1 in s.versions then (s, Raised(VersionExists))
      else
        var next := s.active + 1;
        (Logged(Skill(s.versions[next := Version(patched, base.trigger, base.gate)], next, s.runs),
                input, Solidified, changes, false),
         Finished(Solidified, output["solidified_version" := Int(next)]))
  }

  class Runtime {
    var versions: map<int, Version>
    var active: int
    var runs: seq<RunRow>

    ghost function State(): Skill
      reads this
    {
      Skill(versions, active, runs)
    }

    constructor (first: Version)
      ensures State() == Skill(map[1 := first], 1, [])
    {
      versions, active, runs := map[1 := first], 1, [];
    }

    /** The query for the greatest earlier version. */
    method RollbackToPreviousVersion() returns (moved: bool)
      modifies this`active
      ensures State() == RolledBackSkill(old(State()))
      ensures moved <==> Earlier(versions, old(active)) != {}
    {
      var todo := Earlier(versions, active);
      var best := active;
      moved := false;
      ghost var earlier := todo;
      while todo != {}
        invariant todo <= earlier
        invariant moved ==> best in earlier && forall v :: v in earlier && v !in todo ==> v <= best
        invariant !moved ==> todo == earlier && best == active
        decreases |todo|
      {
        var v :| v in todo;
        if !moved || v > best {
          best := v;
        }
        moved := true;
        todo := todo - {v};
      }
      active := best;
    }

    /** The dynamic stage, as attempt k of the run. */
    method RunDynamic(h: Host, j: Judge, k: nat, base: Version, logic: Dict, input: Dict, reason: string,
                      error: Option<string>, gate: Dict, solidify: bool)
      returns (answer: Answer)
      modifies this
      ensures (State(), answer) ==
              AfterAttempt(old(State()), base, input,
                           TryPatch(h, j, k, old(runs), logic, input, reason, error, gate), solidify)
    {
      var attempt := MakeAttempt(h, j, k, logic, input, reason, error, gate);
      match attempt
      case Broken(e) => return Raised(e);
      case OutsideDomain =>
        FinishRun(input, DomainRejected, map[], true);
        return Finished(DomainRejected, map[]);
      case ExecutionFailed(changes) =>
        var moved := RollbackToPreviousVersion();
        FinishRun(input, RolledBack, changes, true);
        return Finished(RolledBack, map[]);
      case GateFailed(changes, output) =>
        var moved := RollbackToPreviousVersion();
        FinishRun(input, RolledBack, changes, true);
        return Finished(RolledBack, output);
      case Passed(changes, patched, output) =>
        if !solidify {
          return Finished(Dynamic, output);
        }
        answer := SolidifyVersion(base, input, changes, patched, output);
    }

    /** The new version, the active number and the run are stored together, or none of them. */
    method SolidifyVersion(base: Version, input: Dict, changes: Dict, patched: Dict, output: Dict)
      returns (answer: Answer)
      modifies this
      ensures (State(), answer) == AfterAttempt(old(State()), base, input, Passed(changes, patched, output), true)
    {
      var next := active + 1;
      if next in versions {
        return Raised(VersionExists);
      }
      versions := versions[next := Version(patched, base.trigger, base.gate)];
      active := next;
      FinishRun(input, Solidified, changes, false);
      return Finished(Solidified, output["solidified_version" := Int(next)]);
    }

    method FinishRun(input: Dict, stage: Stage, changes: Dict, failed: bool)
      modifies this`runs
      ensures runs == old(runs) + [RunRow(input, stage, changes, failed)]
    {
      runs := runs + [RunRow(input, stage, changes, failed)];
    }

    method MakeAttempt(h: Host, j: Judge, k: nat, logic: Dict, input: Dict, reason: string, error: Option<string>,
                       gate: Dict)
      returns (a: Attempt)
      ensures a == TryPatch(h, j, k, runs, logic, input, reason, error, gate)
    {
      var inDomain := j.inDomain(logic, input);
      if inDomain.Err? {
        return Broken(inDomain.error);
      }
      if !inDomain.value {
        return OutsideDomain;
      }
      var history := RetrieveSuccessHistory(j, runs, input);
      var changes := ProposePatch(h, reason, logic, input, history, error);
      if changes.Err? {
        return Broken(changes.error);
      }
      var patched := ApplyPatch(h, logic, changes.value);
      if patched.Err? {
        return Broken(patched.error);
      }
      var output := ExecuteLogic(h, k, patched.value, input);
      if output.Err? {
        return ExecutionFailed(changes.value);
      }
      var verdict := CheckGate(h, j, output.value, gate);
      if verdict.Err? {
        return Broken(verdict.error);
      }
      return if verdict.value then Passed(changes.value, patched.value, output.value)
             else GateFailed(changes.value, output.value);
    }

    /** One run. An exception in the static stage or in the dynamic stage behind it starts the error path once. */
    method Run(h: Host, j: Judge, req: Request) returns (answer: Answer)
      modifies this
      ensures (State(), answer) == RunSkill(h, j, old(State()), req)
    {
      if active !in versions {
        return Raised(NoActiveVersion);
      }
      var base := versions[active];
      var logic := MergeOverrides(base.logic, req.overrides);
      var trigger, gate := base.trigger + req.trigger, base.gate + req.gate;
      var stage := RunStatic(h, j, logic, gate, req.input);
      if stage.Fails? {
        answer := HandleFault(h, j, base, logic, trigger, gate, req, stage.fault);
        return;
      }
      if stage.Good? && !req.forceDynamic && !Policy(trigger, "force_dynamic", false) {
        FinishRun(req.input, Static, map[], false);
        return Finished(Static, stage.output);
      }
      if !Policy(trigger, "on_quality_below_threshold", true) {
        FinishRun(req.input, StaticQualityFailed, map[], false);
        return Finished(StaticQualityFailed, stage.output);
      }
      var reason := if req.forceDynamic then "force_dynamic" else "quality_gate";
      answer := RunDynamic(h, j, 1, base, logic, req.input, reason, None, gate, req.solidify);
      if answer.Raised? && !answer.fault.VersionExists? {
        answer := HandleFault(h, j, base, logic, trigger, gate, req, answer.fault);
      }
    }

    method RunStatic(h: Host, j: Judge, logic: Dict, gate: Dict, input: Dict) returns (r: StaticOutcome)
      ensures r == StaticStage(h, j, logic, gate, input)
    {
      var output := ExecuteLogic(h, 0, logic, input);
      if output.Err? {
        return Fails(output.error);
      }
      var verdict := CheckGate(h, j, output.value, gate);
      if verdict.Err? {
        return Fails(verdict.error);
      }
      return if verdict.value then Good(output.value) else BelowGate(output.value);
    }

    /** The except branch. */
    method HandleFault(h: Host, j: Judge, base: Version, logic: Dict, trigger: Dict, gate: Dict, req: Request,
                       fault: Fault)
      returns (answer: Answer)
      modifies this
      ensures (State(), answer) == AfterFault(h, j, old(State()), base, logic, trigger, gate, req, fault)
    {
      if !Policy(trigger, "on_error", true) {
        FinishRun(req.input, StaticError, map[], true);
        return Finished(StaticError, map[]);
      }
      answer := RunDynamic(h, j, 2, base, logic, req.input, "error", Some(FaultText(fault)), gate, req.solidify);
    }
  }

  /** str(exc); the texts themselves carry no meaning here. */
  function FaultText(f: Fault): string {
    match f
    case MissingInput => "missing input"
    case VersionExists => "version exists"
    case Outside => "outside"
    case _ => "fault"
  }

  /** What the static stage leads to. */
  datatype StaticOutcome = Good(output: Dict) | BelowGate(output: Dict) | Fails(fault: Fault)

  function StaticStage(h: Host, j: Judge, logic: Dict, gate: Dict, input: Dict): StaticOutcome {
    match ExecuteLogic(h, 0, logic, input)
    case Err(e) => Fails(e)
    case Ok(output) =>
      match Verdict(h, j, output, gate)
      case Err(e) => Fails(e)
      case Ok(ok) => if ok then Good(output) else BelowGate(output)
  }

  /** The error path. */
  ghost function AfterFault(h: Host, j: Judge, s: Skill, base: Version, logic: Dict, trigger: Dict, gate: Dict,
                            req: Request,
                      fault: Fault): (Skill, Answer)
  {
    if !Policy(trigger, "on_error", true) then
      (Logged(s, req.input, StaticError, map[], true), Finished(StaticError, map[]))
    else
      AfterAttempt(s, base, req.input,
                   TryPatch(h, j, 2, s.runs, logic, req.input, "error", Some(FaultText(fault)), gate), req.solidify)
  }

  /** One whole run of a skill. A violated unique key leaves the session unusable, so the error path behind it only
      raises. */
  ghost function RunSkill(h: Host, j: Judge, s: Skill, req: Request): (Skill, Answer) {
    if s.active !in s.versions then (s, Raised(NoActiveVersion))
    else
      var base := s.versions[s.active];
      var logic := MergeOverrides(base.logic, req.overrides);
      var trigger, gate := base.trigger + req.trigger, base.gate + req.gate;
      var stage := StaticStage(h, j, logic, gate, req.input);
      if stage.Fails? then AfterFault(h, j, s, base, logic, trigger, gate, req, stage.fault)
      else if stage.Good? && !req.forceDynamic && !Policy(trigger, "force_dynamic", false) then
        (Logged(s, req.input, Static, map[], false), Finished(Static, stage.output))
      else if !Policy(trigger, "on_quality_below_threshold", true) then
        (Logged(s, req.input, StaticQualityFailed, map[], false), Finished(StaticQualityFailed, stage.output))
      else
        var reason := if req.forceDynamic then "force_dynamic" else "quality_gate";
        var (s', answer) :=
          AfterAttempt(s, base, req.input, TryPatch(h, j, 1, s.runs, logic, req.input, reason, None, gate),
                       req.solidify);
        if answer.Finished? || answer.fault.VersionExists? then (s', answer)
        else AfterFault(h, j, s', base, logic, trigger, gate, req, answer.fault)
  }
}
