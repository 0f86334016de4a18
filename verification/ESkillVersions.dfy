/** What every run, and every sequence of runs, keeps of a skill's versions. */
module ESkillVersions {
  import opened Basics
  import opened ESkillValues
  import opened ESkillInterpreter
  import opened ESkillPatch
  import opened ESkillGate
  import opened ESkillRuntime

  ghost predicate Installed(s: Skill) {
    s.active in s.versions
  }

  /** Stored versions are never removed or edited, and stored runs neither. */
  ghost predicate Extends(s: Skill, s': Skill) {
    && (forall v :: v in s.versions ==> v in s'.versions && s'.versions[v] == s.versions[v])
    && s.runs <= s'.runs
  }

  lemma ExtendsTransitive(s: Skill, s': Skill, s'': Skill)
    requires Extends(s, s') && Extends(s', s'')
    ensures Extends(s, s'')
  {
  }

  /** The new version's logic ran on this run's input, and its output passed this run's gate. */
  ghost predicate Earned(h: Host, j: Judge, logic: Dict, input: Dict, gate: Dict) {
    exists k: nat :: RanWell(h, j, k, logic, input, gate)
  }

  ghost predicate RanWell(h: Host, j: Judge, k: nat, logic: Dict, input: Dict, gate: Dict) {
    var r := ExecuteLogic(h, k, logic, input);
    r.Ok? && Verdict(h, j, r.value, gate) == Ok(true)
  }

  /** One step up: to the next number, which was free, with the policies of the version it came from. */
  ghost predicate MovesUp(s: Skill, s': Skill, logic: Dict) {
    && s.active in s.versions
    && s'.active == s.active + 1 && s.active + 1 !in s.versions
    && s'.versions ==
       s.versions[s.active + 1 := Version(logic, s.versions[s.active].trigger, s.versions[s.active].gate)]
  }

  ghost predicate MovesDown(s: Skill, s': Skill) {
    s'.versions == s.versions && IsPrevious(s.versions, s.active, s'.active)
  }

  ghost predicate Stays(s: Skill, s': Skill) {
    s'.versions == s.versions && s'.active == s.active
  }

  lemma PassedRanWell(h: Host, j: Judge, k: nat, runs: seq<RunRow>, logic: Dict, input: Dict, reason: string,
                      error: Option<string>, gate: Dict)
    ensures var a := TryPatch(h, j, k, runs, logic, input, reason, error, gate);
            a.Passed? ==>
              RanWell(h, j, k, a.patched, input, gate) && ExecuteLogic(h, k, a.patched, input) == Ok(a.output)
  {
    hide ExecuteLogic, Verdict, Patched, ProposedChanges, History;
  }

  /** The effects of one dynamic attempt. */
  lemma AttemptMoves(s: Skill, input: Dict, a: Attempt, solidify: bool)
    requires Installed(s)
    ensures var (s', answer) := AfterAttempt(s, s.versions[s.active], input, a, solidify);
            && Installed(s') && Extends(s, s') && |s'.runs| <= |s.runs| + 1
            && (answer.Raised? ==> s' == s)
            && (answer.Finished? && answer.stage.Solidified? <==> a.Passed? && solidify && s.active + 1 !in s.versions)
            && (answer == Raised(VersionExists) && a != Broken(VersionExists) <==>
                a.Passed? && solidify && s.active + 1 in s.versions)
            && (if a.Passed? && solidify && s.active + 1 !in s.versions then MovesUp(s, s', a.patched)
                else if (a.ExecutionFailed? || a.GateFailed?) && Earlier(s.versions, s.active) != {}
                     then MovesDown(s, s')
                else Stays(s, s'))
  {
  }

  /** How a run may move the active number: not at all, up by solidifying logic that passed on this run's input,
      or down to the greatest earlier version. */
  ghost predicate Allowed(h: Host, j: Judge, s: Skill, s': Skill, answer: Answer, req: Request) {
    && Installed(s') && Extends(s, s')
    && (answer.Raised? ==> s' == s)
    && (|| (Stays(s, s') && !(answer.Finished? && answer.stage.Solidified?))
        || (MovesDown(s, s') && answer.Finished? && answer.stage.RolledBack?)
        || (exists logic :: UpBy(h, j, s, s', answer, req, logic)))
  }

  ghost predicate UpBy(h: Host, j: Judge, s: Skill, s': Skill, answer: Answer, req: Request, logic: Dict) {
    && MovesUp(s, s', logic)
    && Earned(h, j, logic, req.input, s.versions[s.active].gate + req.gate)
    && req.solidify && answer.Finished? && answer.stage.Solidified?
  }

  lemma AttemptIsAllowed(h: Host, j: Judge, s: Skill, k: nat, logic: Dict, reason: string, error: Option<string>,
                         req: Request)
    requires Installed(s)
    ensures var gate := s.versions[s.active].gate + req.gate;
            var a := TryPatch(h, j, k, s.runs, logic, req.input, reason, error, gate);
            var (s', answer) := AfterAttempt(s, s.versions[s.active], req.input, a, req.solidify);
            Allowed(h, j, s, s', answer, req)
  {
    var gate := s.versions[s.active].gate + req.gate;
    var a := TryPatch(h, j, k, s.runs, logic, req.input, reason, error, gate);
    AttemptMoves(s, req.input, a, req.solidify);
    PassedRanWell(h, j, k, s.runs, logic, req.input, reason, error, gate);
    var (s', answer) := AfterAttempt(s, s.versions[s.active], req.input, a, req.solidify);
    if a.Passed? && req.solidify && s.active + 1 !in s.versions {
      assert UpBy(h, j, s, s', answer, req, a.patched);
    }
  }

  lemma QuietRunIsAllowed(h: Host, j: Judge, s: Skill, req: Request, stage: Stage, output: Dict, failed: bool)
    requires Installed(s) && !stage.Solidified?
    ensures Allowed(h, j, s, Logged(s, req.input, stage, map[], failed), Finished(stage, output), req)
  {
  }

  lemma FaultIsAllowed(h: Host, j: Judge, s: Skill, logic: Dict, trigger: Dict, req: Request, fault: Fault)
    requires Installed(s)
    ensures var base := s.versions[s.active];
            var (s', answer) := AfterFault(h, j, s, base, logic, trigger, base.gate + req.gate, req, fault);
            Allowed(h, j, s, s', answer, req)
  {
    if !Policy(trigger, "on_error", true) {
      QuietRunIsAllowed(h, j, s, req, StaticError, map[], true);
    } else {
      AttemptIsAllowed(h, j, s, 2, logic, "error", Some(FaultText(fault)), req);
    }
  }

  /** One run, whatever its input, overrides, policies, faults and outside answers. */
  lemma RunIsAllowed(h: Host, j: Judge, s: Skill, req: Request)
    requires Installed(s)
    ensures var (s', answer) := RunSkill(h, j, s, req); Allowed(h, j, s, s', answer, req)
  {
    hide TryPatch, Allowed, AfterAttempt, MergeOverrides, StaticStage, Policy;
    var base := s.versions[s.active];
    var logic := MergeOverrides(base.logic, req.overrides);
    var trigger, gate := base.trigger + req.trigger, base.gate + req.gate;
    var stage := StaticStage(h, j, logic, gate, req.input);
    if stage.Fails? {
      FaultIsAllowed(h, j, s, logic, trigger, req, stage.fault);
    } else if stage.Good? && !req.forceDynamic && !Policy(trigger, "force_dynamic", false) {
      QuietRunIsAllowed(h, j, s, req, Static, stage.output, false);
    } else if !Policy(trigger, "on_quality_below_threshold", true) {
      QuietRunIsAllowed(h, j, s, req, StaticQualityFailed, stage.output, false);
    } else {
      var reason := if req.forceDynamic then "force_dynamic" else "quality_gate";
      AttemptIsAllowed(h, j, s, 1, logic, reason, None, req);
      var a := TryPatch(h, j, 1, s.runs, logic, req.input, reason, None, gate);
      var answer := AfterAttempt(s, base, req.input, a, req.solidify).1;
      if answer.Raised? {
        FaultIsAllowed(h, j, s, logic, trigger, req, answer.fault);
      }
    }
  }

  // ----- sequences of runs -----

  datatype Call = Call(h: Host, j: Judge, req: Request)

  ghost function RunAll(s: Skill, calls: seq<Call>): Skill {
    if |calls| == 0 then s
    else
      var before, c := RunAll(s, calls[..|calls| - 1]), calls[|calls| - 1];
      RunSkill(c.h, c.j, before, c.req).0
  }

  /** The active number always names a stored version, and nothing stored is lost or edited. */
  lemma {:induction false} RunsKeepVersions(s: Skill, calls: seq<Call>)
    requires Installed(s)
    ensures Installed(RunAll(s, calls)) && Extends(s, RunAll(s, calls))
  {
    if |calls| > 0 {
      var front, c := calls[..|calls| - 1], calls[|calls| - 1];
      RunsKeepVersions(s, front);
      RunIsAllowed(c.h, c.j, RunAll(s, front), c.req);
      ExtendsTransitive(s, RunAll(s, front), RunAll(s, calls));
    }
  }

  /** The versions are numbered 1 to top without a gap. */
  ghost predicate NumberedTo(s: Skill, top: int) {
    Installed(s) && forall v :: v in s.versions <==> 1 <= v <= top
  }

  ghost predicate KeepsNumbering(s: Skill, s': Skill, answer: Answer, top: int) {
    if answer.Finished? && answer.stage.Solidified?
    then s.active == top && s'.active == top + 1 && NumberedTo(s', top + 1)
    else NumberedTo(s', top) && s'.versions == s.versions && s.active - 1 <= s'.active <= s.active
  }

  lemma AllowedKeepsNumbering(h: Host, j: Judge, s: Skill, s': Skill, answer: Answer, req: Request, top: int)
    requires NumberedTo(s, top) && Allowed(h, j, s, s', answer, req)
    ensures KeepsNumbering(s, s', answer, top)
  {
    if exists logic :: UpBy(h, j, s, s', answer, req, logic) {
      var logic :| UpBy(h, j, s, s', answer, req, logic);
      assert MovesUp(s, s', logic);
    } else if MovesDown(s, s') {
      assert s'.active in s.versions;
      assert s.active - 1 in s.versions;
    }
  }

  /** A run keeps the numbering; it adds a number only from the newest version; and it rolls back by exactly one. */
  lemma RunKeepsNumbering(h: Host, j: Judge, s: Skill, req: Request, top: int)
    requires NumberedTo(s, top)
    ensures KeepsNumbering(s, RunSkill(h, j, s, req).0, RunSkill(h, j, s, req).1, top)
  {
    var r := RunSkill(h, j, s, req);
    assert Allowed(h, j, s, r.0, r.1, req) by {
      RunIsAllowed(h, j, s, req);
    }
    AllowedKeepsNumbering(h, j, s, r.0, r.1, req, top);
  }

  /** A passed attempt becomes a new version if and only if the active version is the newest: behind a roll-back the
      next number is taken, the unique key refuses it, and the run raises and leaves nothing. */
  lemma SolidifiesIffNewest(s: Skill, input: Dict, a: Attempt, top: int)
    requires NumberedTo(s, top) && a.Passed?
    ensures var (s', answer) := AfterAttempt(s, s.versions[s.active], input, a, true);
            && (s'.active == s.active + 1 <==> s.active == top)
            && (s.active < top <==> answer == Raised(VersionExists))
            && (s.active < top ==> s' == s)
  {
    AttemptMoves(s, input, a, true);
  }

  /** So a roll-back is for good: from a version that is not the newest, no sequence of runs ever adds a version
      or moves the active number up again. */
  lemma {:induction false} RollbackIsForGood(s: Skill, calls: seq<Call>, top: int)
    requires NumberedTo(s, top) && s.active < top
    ensures var s' := RunAll(s, calls);
            NumberedTo(s', top) && s'.versions == s.versions && s'.active <= s.active
  {
    if |calls| > 0 {
      var front, c := calls[..|calls| - 1], calls[|calls| - 1];
      RollbackIsForGood(s, front, top);
      RunKeepsNumbering(c.h, c.j, RunAll(s, front), c.req, top);
    }
  }

  // ----- a skill that is rolled back and cannot move up again -----

  const STRICT := "strict"

  /** Every input is in the domain, no run is related to another, and the gate lets everything pass unless it is strict;
      then it asks for a score that no output has. */
  const OPEN_JUDGE := Judge(
                        gate => Ok(Gate([], 0, [], [], "", [], if STRICT in gate then 2.0 else 0.0)),
                        output => "", (pattern, text) => Missed, (logic, input) => Ok(true), (input, other) => false)

  lemma {:induction false} NothingRelated(runs: seq<RunRow>, input: Dict, n: nat, rows: nat, want: nat)
    requires n <= |runs|
    ensures History(OPEN_JUDGE, runs, input, n, rows, want) == []
  {
    if n > 0 && rows > 0 {
      NothingRelated(runs, input, n - 1, rows, want);
      NothingRelated(runs, input, n - 1, rows - 1, want);
    }
  }

  /** Logic that the rules patch into a plain template. */
  predicate PlainTemplate(h: Host, logic: Dict) {
    LogicType(h, logic) == TEMPLATE && !Truthy(Get(logic, "allow_steps")) && Dictable(Get(logic, "metadata"))
  }

  lemma PatchStaysPlain(h: Host, logic: Dict, changes: Dict, reason: string, input: Dict, error: Option<string>)
    requires PlainTemplate(h, logic) && ProposedChanges(h, reason, logic, input, [], error) == Ok(changes)
    requires Patched(h, logic, changes).Ok?
    ensures PlainTemplate(h, Patched(h, logic, changes).value)
  {
    hide Metadata, DictOf, MergedMetadata;
    PatchedField(h, logic, changes, "type");
    PatchedField(h, logic, changes, "allow_steps");
    RuleFields(h, reason, logic, input, error);
    assert Get(Patched(h, logic, changes).value, "metadata").Obj?;
  }

  lemma OpenVerdict(h: Host, output: Dict, gate: Dict)
    ensures Verdict(h, OPEN_JUDGE, output, gate) == Ok(STRICT !in gate)
  {
  }

  /** Under this judge every attempt on such logic runs, and passes exactly if the gate is not strict. */
  lemma AttemptByGate(h: Host, k: nat, runs: seq<RunRow>, logic: Dict, input: Dict, reason: string,
                      error: Option<string>, gate: Dict)
    requires PlainTemplate(h, logic)
    ensures var a := TryPatch(h, OPEN_JUDGE, k, runs, logic, input, reason, error, gate);
            if STRICT in gate then a.GateFailed? else a.Passed? && PlainTemplate(h, a.patched)
  {
    hide ProposedChanges, Patched, ExecuteLogic, Verdict, PlainTemplate, History, Dictable;
    NothingRelated(runs, input, |runs|, 30, 5);
    IsPlain(h, logic);
    PatchedLogicRuns(h, reason, logic, input, error, k, input);
    var changes := ProposedChanges(h, reason, logic, input, [], error).value;
    PatchStaysPlain(h, logic, changes, reason, input, error);
    OpenVerdict(h, ExecuteLogic(h, k, Patched(h, logic, changes).value, input).value, gate);
  }

  lemma IsPlain(h: Host, logic: Dict)
    requires PlainTemplate(h, logic)
    ensures LogicType(h, logic) != EMPLOYEE && Dictable(Get(logic, "metadata"))
  {
  }

  /** A forced dynamic run of a skill without policies is one attempt: the first one, or the one of the error path. */
  lemma ForcedRun(h: Host, s: Skill, input: Dict, gate: Dict)
    requires Installed(s) && s.versions[s.active].trigger == map[] && s.versions[s.active].gate == map[]
    requires PlainTemplate(h, s.versions[s.active].logic)
    ensures var base := s.versions[s.active];
            exists a: Attempt ::
              && RunSkill(h, OPEN_JUDGE, s, Request(input, map[], map[], gate, true, true)) ==
                 AfterAttempt(s, base, input, a, true)
              && if STRICT in gate then a.GateFailed? else a.Passed? && PlainTemplate(h, a.patched)
  {
    hide TryPatch, AfterAttempt, StaticStage, PlainTemplate;
    var base := s.versions[s.active];
    var req := Request(input, map[], map[], gate, true, true);
    assert MergeOverrides(base.logic, map[]) == base.logic;
    assert base.trigger + map[] == map[] && base.gate + gate == gate;
    var stage := StaticStage(h, OPEN_JUDGE, base.logic, gate, input);
    if stage.Fails? {
      var error := Some(FaultText(stage.fault));
      AttemptByGate(h, 2, s.runs, base.logic, input, "error", error, gate);
      var a := TryPatch(h, OPEN_JUDGE, 2, s.runs, base.logic, input, "error", error, gate);
      assert RunSkill(h, OPEN_JUDGE, s, req) == AfterAttempt(s, base, input, a, true);
    } else {
      AttemptByGate(h, 1, s.runs, base.logic, input, "force_dynamic", None, gate);
      var a := TryPatch(h, OPEN_JUDGE, 1, s.runs, base.logic, input, "force_dynamic", None, gate);
      AttemptAnswers(s, base, input, a);
      assert RunSkill(h, OPEN_JUDGE, s, req) == AfterAttempt(s, base, input, a, true);
    }
  }

  lemma AttemptAnswers(s: Skill, base: Version, input: Dict, a: Attempt)
    requires a.GateFailed? || a.Passed?
    ensures var answer := AfterAttempt(s, base, input, a, true).1; answer.Finished? || answer.fault.VersionExists?
  {
  }

  /** From a skill with one version: a run that passes makes version 2, one that fails the gate goes back to version 1,
      and from then on the run that passed before raises and leaves nothing. */
  lemma RolledBackSkillIsStuck(h: Host, input: Dict)
    ensures var first := Skill(map[1 := Version(map[], map[], map[])], 1, []);
            var up := Request(input, map[], map[], map[], true, true);
            var down := up.(gate := map[STRICT := Null]);
            var s1 := RunSkill(h, OPEN_JUDGE, first, up).0;
            var s2 := RunSkill(h, OPEN_JUDGE, s1, down).0;
            && s1.active == 2 && s1.versions.Keys == {1, 2}
            && s2.active == 1 && s2.versions == s1.versions
            && RunSkill(h, OPEN_JUDGE, s2, up) == (s2, Raised(VersionExists))
  {
    hide RunSkill, PlainTemplate;
    var first := Skill(map[1 := Version(map[], map[], map[])], 1, []);
    var up := Request(input, map[], map[], map[], true, true);
    var down := up.(gate := map[STRICT := Null]);
    EmptyIsPlain(h);
    ForcedRun(h, first, input, map[]);
    var s1 := RunSkill(h, OPEN_JUDGE, first, up).0;
    assert s1.active == 2 && s1.versions.Keys == {1, 2};
    ForcedRun(h, s1, input, map[STRICT := Null]);
    var s2 := RunSkill(h, OPEN_JUDGE, s1, down).0;
    assert 1 in Earlier(s1.versions, 2);
    assert s2.active == 1 && s2.versions == s1.versions;
    ForcedRun(h, s2, input, map[]);
  }

  lemma EmptyIsPlain(h: Host)
    ensures PlainTemplate(h, map[])
  {
  }

  /** Every state reachable from a skill with one version is numbered without gaps. */
  lemma {:induction false} ReachableIsNumbered(s: Skill, calls: seq<Call>) returns (top: int)
    requires NumberedTo(s, 1)
    ensures NumberedTo(RunAll(s, calls), top) && 1 <= top <= 1 + |calls|
  {
    if |calls| == 0 {
      top := 1;
    } else {
      var front, c := calls[..|calls| - 1], calls[|calls| - 1];
      top := ReachableIsNumbered(s, front);
      RunKeepsNumbering(c.h, c.j, RunAll(s, front), c.req, top);
      var answer := RunSkill(c.h, c.j, RunAll(s, front), c.req).1;
      top := if answer.Finished? && answer.stage.Solidified? then top + 1 else top;
    }
  }
}
