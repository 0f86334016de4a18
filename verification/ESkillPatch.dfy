/** The adapter that proposes a patch for logic that failed, the merge of a patch into logic, and what patching
    guarantees. */
module ESkillPatch {
  import opened Basics
  import opened ESkillValues
  import opened ESkillTemplate
  import opened ESkillInterpreter

  const DEFAULT_TASK := "请根据输入完成任务，并适配特殊场景：${details}"

  function Metadata(reason: string, history: nat, input: Dict, error: Option<string>, reused: bool): Dict {
    var m1: Dict := map["adapted_for" := Str(reason)]["history_matches" := Int(history)];
    var m2 := if error.Some? then m1["last_error" := Str(error.value)] else m1;
    var m3 := if Truthy(Get(input, "details")) then m2["used_details" := Bool(true)] else m2;
    if reused then m3["reused_patch" := Bool(true)] else m3
  }

  /** The template a failed template is replaced by. */
  function DynamicTemplate(logic: Dict): Value {
    Or(Get(logic, "dynamic_template"),
       Or(Get(logic, "fallback_template"), Or(Get(logic, "template"), Str(FALLBACK_TEMPLATE))))
  }

  function RenderStep(h: Host, logic: Dict): Value {
    Obj(map["id" := Str("render_dynamic_template"), "type" := Str(TEMPLATE), "template" := DynamicTemplate(logic),
            "output_var" := Str(StrOr(h, Get(logic, "output_var"), "eskill_result"))])
  }

  function ReasonStep(reason: string): Value {
    Obj(map["id" := Str("attach_adaptation_reason"), "type" := Str(SET_VALUE), "output_var" := Str("adaptation_reason"),
            "value" := Str(reason)])
  }

  /** The changes for logic without a history to reuse, over those already there. For an employee task with a text, the
      formatted replacement names a variable that does not exist, so the adapter itself raises. */
  function RuleChanges(h: Host, reason: string, logic: Dict, before: Dict): Result<Dict, Fault> {
    var kind := LogicType(h, logic);
    if kind == TEMPLATE then
      var changes := before["template" := DynamicTemplate(logic)]["required_fields" := List([])];
      Ok(if Truthy(Get(logic, "allow_steps"))
         then changes["type" := Str(PIPELINE)]["steps" := List([RenderStep(h, logic), ReasonStep(reason)])]
         else changes)
    else if kind == EMPLOYEE then
      if StrOr(h, Or(Get(logic, "task_template"), Get(logic, "task")), "") != "" then Err(UndefinedName)
      else
        var retries := Get(logic, "retry_count");
        var count := if Truthy(retries) then h.toInt(retries) else Some(0);
        if count.None? then Err(NotANumber)
        else Ok(before["task_template" := Str(DEFAULT_TASK)]["retry_count" := Int(Max(count.value, 1))])
    else Ok(before["type" := Str(TEMPLATE)]["template" := Str(FALLBACK_TEMPLATE)]["required_fields" := List([])])
  }

  /** The changes of a patch; `history` holds the changes of earlier successful runs, newest first. */
  function ProposedChanges(h: Host, reason: string, logic: Dict, input: Dict, history: seq<Dict>,
                           error: Option<string>): Result<Dict, Fault>
  {
    var metadata := Obj(Metadata(reason, |history|, input, error, history != []));
    if history != [] then Ok(map["metadata" := metadata] + (history[0] - {"metadata"}))
    else RuleChanges(h, reason, logic, map["metadata" := metadata])
  }

  method ProposePatch(h: Host, reason: string, logic: Dict, input: Dict, history: seq<Dict>, error: Option<string>)
    returns (r: Result<Dict, Fault>)
    ensures r == ProposedChanges(h, reason, logic, input, history, error)
  {
    var metadata := BuildMetadata(reason, |history|, input, error, history != []);
    if history != [] {
      return Ok(map["metadata" := Obj(metadata)] + (history[0] - {"metadata"}));
    }
    r := FillRuleChanges(h, reason, logic, StrOr(h, Get(logic, "type"), TEMPLATE), map["metadata" := Obj(metadata)]);
  }

  method BuildMetadata(reason: string, history: nat, input: Dict, error: Option<string>, reused: bool) returns (m: Dict)
    ensures m == Metadata(reason, history, input, error, reused)
  {
    m := map["adapted_for" := Str(reason)];
    m := m["history_matches" := Int(history)];
    if error.Some? {
      m := m["last_error" := Str(error.value)];
    }
    if Truthy(Get(input, "details")) {
      m := m["used_details" := Bool(true)];
    }
    if reused {
      m := m["reused_patch" := Bool(true)];
    }
  }

  /** The changes by logic type, added to those already there. */
  method FillRuleChanges(h: Host, reason: string, logic: Dict, kind: string, before: Dict)
    returns (r: Result<Dict, Fault>)
    requires kind == LogicType(h, logic)
    ensures r == RuleChanges(h, reason, logic, before)
  {
    var changes := before;
    if kind == TEMPLATE {
      changes := changes["template" := DynamicTemplate(logic)];
      changes := changes["required_fields" := List([])];
      if Truthy(Get(logic, "allow_steps")) {
        changes := changes["type" := Str(PIPELINE)];
        changes := changes["steps" := List([RenderStep(h, logic), ReasonStep(reason)])];
      }
    } else if kind == EMPLOYEE {
      if StrOr(h, Or(Get(logic, "task_template"), Get(logic, "task")), "") != "" {
        return Err(UndefinedName);
      }
      changes := changes["task_template" := Str(DEFAULT_TASK)];
      var count := if Truthy(Get(logic, "retry_count")) then h.toInt(Get(logic, "retry_count")) else Some(0);
      if count.None? {
        return Err(NotANumber);
      }
      changes := changes["retry_count" := Int(Max(count.value, 1))];
    } else {
      changes := changes["type" := Str(TEMPLATE)];
      changes := changes["template" := Str(FALLBACK_TEMPLATE)];
      changes := changes["required_fields" := List([])];
    }
    return Ok(changes);
  }

  // ----- what is proposed -----

  /** The first of some values that is not empty, or the last resort. */
  ghost predicate IsFirstFilled(v: Value, candidates: seq<Value>, last: Value) {
    || (exists i :: 0 <= i < |candidates| && v == candidates[i] && Truthy(v)
                    && forall k :: 0 <= k < i ==> !Truthy(candidates[k]))
    || (v == last && forall k :: 0 <= k < |candidates| ==> !Truthy(candidates[k]))
  }

  /** Why the patch was made, and what it rests on. */
  ghost predicate Describes(m: Dict, reason: string, history: nat, input: Dict, error: Option<string>) {
    && m.Keys == {"adapted_for", "history_matches"} + (if error.Some? then {"last_error"} else {})
                 + (if "details" in input && Truthy(input["details"]) then {"used_details"} else {})
                 + (if history > 0 then {"reused_patch"} else {})
    && m["adapted_for"] == Str(reason) && m["history_matches"] == Int(history)
    && (error.Some? ==> m["last_error"] == Str(error.value))
    && ("used_details" in m ==> m["used_details"] == Bool(true))
    && ("reused_patch" in m ==> m["reused_patch"] == Bool(true))
  }

  lemma MetadataDescribes(reason: string, history: nat, input: Dict, error: Option<string>)
    ensures Describes(Metadata(reason, history, input, error, history > 0), reason, history, input, error)
  {
  }

  /** The standard task, with at least one retry. */
  ghost predicate ProposesTask(h: Host, logic: Dict, c: Dict) {
    && c.Keys == {"metadata", "task_template", "retry_count"}
    && c["task_template"] == Str(DEFAULT_TASK) && c["retry_count"].Int?
    && var tries := Get(logic, "retry_count");
       if Truthy(tries) then
         && h.toInt(tries).Some? && c["retry_count"].n >= h.toInt(tries).value && c["retry_count"].n >= 1
         && c["retry_count"].n in {h.toInt(tries).value, 1}
       else c["retry_count"].n == 1
  }

  /** The first filled one of a template's replacements; for logic of other types the last resort. */
  ghost predicate ProposesTemplate(h: Host, reason: string, logic: Dict, c: Dict) {
    && "template" in c
    && IsFirstFilled(c["template"],
                     if LogicType(h, logic) != TEMPLATE then []
                     else [Get(logic, "dynamic_template"), Get(logic, "fallback_template"), Get(logic, "template")],
                     Str("Dynamic result: ${details}"))
    && RulesApplied(h, reason, logic, c)
    && c.Keys <= {"metadata", "template", "required_fields", "type", "steps"}
    && ("steps" in c ==> LogicType(h, logic) == TEMPLATE && Truthy(Get(logic, "allow_steps")))
  }

  lemma TemplateProposal(h: Host, reason: string, logic: Dict, metadata: Value)
    requires LogicType(h, logic) != EMPLOYEE
    ensures var r := RuleChanges(h, reason, logic, map["metadata" := metadata]);
            r.Ok? && ProposesTemplate(h, reason, logic, r.value)
  {
    hide LogicType, RenderStep, ReasonStep;
    var r := RuleChanges(h, reason, logic, map["metadata" := metadata]);
    if LogicType(h, logic) == TEMPLATE {
      var c := [Get(logic, "dynamic_template"), Get(logic, "fallback_template"), Get(logic, "template")];
      hide RuleChanges;
      FirstFilled(logic, c);
    }
  }

  lemma FirstFilled(logic: Dict, c: seq<Value>)
    requires c == [Get(logic, "dynamic_template"), Get(logic, "fallback_template"), Get(logic, "template")]
    ensures IsFirstFilled(DynamicTemplate(logic), c, Str("Dynamic result: ${details}"))
  {
    assert c[0] == Get(logic, "dynamic_template") && c[1] == Get(logic, "fallback_template");
    assert c[2] == Get(logic, "template");
  }

  lemma TaskProposal(h: Host, reason: string, logic: Dict, metadata: Value)
    requires LogicType(h, logic) == EMPLOYEE
    requires RuleChanges(h, reason, logic, map["metadata" := metadata]).Ok?
    ensures ProposesTask(h, logic, RuleChanges(h, reason, logic, map["metadata" := metadata]).value)
  {
  }

  /** With a history, the newest related patch is proposed again under metadata of this run. Without one, it is the
      rule for the logic's type. */
  lemma ProposalMeans(h: Host, reason: string, logic: Dict, input: Dict, history: seq<Dict>, error: Option<string>)
    requires ProposedChanges(h, reason, logic, input, history, error).Ok?
    ensures var c := ProposedChanges(h, reason, logic, input, history, error).value;
            && "metadata" in c && c["metadata"].Obj?
            && Describes(c["metadata"].fields, reason, |history|, input, error)
            && if history != [] then
                 forall k :: k != "metadata" ==>
                   (k in c <==> k in history[0]) && (k in history[0] ==> c[k] == history[0][k])
               else if LogicType(h, logic) == EMPLOYEE then ProposesTask(h, logic, c)
               else ProposesTemplate(h, reason, logic, c)
  {
    hide Describes, Metadata, LogicType, RuleChanges, ProposesTask, ProposesTemplate;
    MetadataDescribes(reason, |history|, input, error);
    var metadata := Obj(Metadata(reason, |history|, input, error, history != []));
    if history == [] {
      KeepsMetadata(h, reason, logic, metadata);
      if LogicType(h, logic) == EMPLOYEE {
        TaskProposal(h, reason, logic, metadata);
      } else {
        TemplateProposal(h, reason, logic, metadata);
      }
    }
  }

  lemma KeepsMetadata(h: Host, reason: string, logic: Dict, metadata: Value)
    ensures var r := RuleChanges(h, reason, logic, map["metadata" := metadata]);
            r.Ok? ==> "metadata" in r.value && r.value["metadata"] == metadata
  {
    hide LogicType, RenderStep, ReasonStep, DynamicTemplate;
  }

  // ----- merging a patch -----

  /** The key of a two-key dict that is not its first one. */
  function SecondKey(h: Host, fields: Dict): (key: string)
    requires |fields| == 2
    ensures fields.Keys == {h.firstKey(fields), key} && key != h.firstKey(fields)
  {
    var first := h.firstKey(fields);
    var rest := fields.Keys - {first};
    assert first in fields && |fields.Keys| == 2 && |rest| == 1;
    OneElement(rest);
    var key :| key in rest;
    assert fields.Keys == rest + {first} && rest == {key};
    key
  }

  lemma OneElement(s: set<string>)
    requires |s| == 1
    ensures exists x :: x in s
    ensures forall x, y :: x in s && y in s ==> x == y
  {
    assert s != {};
    forall x, y | x in s && y in s ensures x == y {
      assert |s - {x}| == 0;
      assert y !in s - {x};
    }
  }

  /** One item of a list handed to dict(): a list of two, a text of two characters, or a dict of two keys, which
      counts as the pair of its keys. Keys that are not texts are stored under their text; lists and dicts cannot be
      keys. */
  function PairOf(h: Host, v: Value): Option<(string, Value)> {
    match v
    case Str(s) => if |s| == 2 then Some(([s[0]], Str([s[1]]))) else None
    case List(items) =>
      if |items| == 2 && !items[0].List? && !items[0].Obj? then Some((ToStr(h, items[0]), items[1])) else None
    case Obj(fields) =>
      if |fields| == 2 then Some((h.firstKey(fields), Str(SecondKey(h, fields)))) else None
    case _ => None
  }

  function DictOfPairs(h: Host, items: seq<Value>): Option<Dict> {
    if |items| == 0 then Some(map[])
    else
      var front, last := DictOfPairs(h, items[..|items| - 1]), PairOf(h, items[|items| - 1]);
      if front.None? || last.None? then None else Some(front.value[last.value.0 := last.value.1])
  }

  /** dict(v or {}) */
  function DictOf(h: Host, v: Value): Option<Dict> {
    if !Truthy(v) then Some(map[])
    else match v
      case Obj(fields) => Some(fields)
      case List(items) => DictOfPairs(h, items)
      case _ => None
  }

  /** What dict() takes for a pair: anything of two elements whose first one can be a key. */
  predicate IsPair(v: Value) {
    match v
    case Str(s) => |s| == 2
    case List(items) => |items| == 2 && !items[0].List? && !items[0].Obj?
    case Obj(fields) => |fields| == 2
    case _ => false
  }

  /** What dict(v or {}) takes. */
  predicate Dictable(v: Value) {
    !Truthy(v) || v.Obj? || (v.List? && forall i :: 0 <= i < |v.items| ==> IsPair(v.items[i]))
  }

  lemma {:induction false} DictOfPairsIff(h: Host, items: seq<Value>)
    ensures DictOfPairs(h, items).Some? <==> forall i :: 0 <= i < |items| ==> IsPair(items[i])
  {
    if |items| > 0 {
      DictOfPairsIff(h, items[..|items| - 1]);
      assert forall i :: 0 <= i < |items| ==> items[i] == if i < |items| - 1 then items[..|items| - 1][i] else items[i];
    }
  }

  lemma DictOfIff(h: Host, v: Value)
    ensures DictOf(h, v).Some? <==> Dictable(v)
  {
    if v.List? {
      DictOfPairsIff(h, v.items);
    }
  }

  function MergedMetadata(before: Dict, added: Value): Dict {
    if added.Obj? then before + added.fields else before["value" := added]
  }

  /** The merge, key by key; metadata is merged into the old metadata, everything else replaced. */
  function Patched(h: Host, logic: Dict, changes: Dict): Result<Dict, Fault> {
    var merged := logic + (changes - {"metadata"});
    if "metadata" !in changes then Ok(merged)
    else
      var meta := DictOf(h, Get(logic, "metadata"));
      if meta.None? then Err(NotADict)
      else Ok(merged["metadata" := Obj(MergedMetadata(meta.value, changes["metadata"]))])
  }

  /** One more change of another key: a plain one is set over the merge so far, a metadata one merged into the old
      one. */
  lemma PatchedMore(h: Host, logic: Dict, changes: Dict, key: string, value: Value)
    requires key !in changes
    ensures key != "metadata" && Patched(h, logic, changes).Ok? ==>
              Patched(h, logic, changes[key := value]) == Ok(Patched(h, logic, changes).value[key := value])
    ensures key == "metadata" ==>
              var meta := DictOf(h, Get(logic, "metadata"));
              var r := Patched(h, logic, changes[key := value]);
              if meta.None? then r == Err(NotADict)
              else r == Ok(Patched(h, logic, changes).value["metadata" := Obj(MergedMetadata(meta.value, value))])
    ensures "metadata" !in changes && Patched(h, logic, changes).Ok? ==>
              Get(Patched(h, logic, changes).value, "metadata") == Get(logic, "metadata")
  {
    hide DictOf, MergedMetadata;
    var plain, more := changes - {"metadata"}, changes[key := value] - {"metadata"};
    if key == "metadata" {
      assert more == plain;
      assert plain == changes;
    } else {
      assert more == plain[key := value];
      assert logic + more == (logic + plain)[key := value];
      if "metadata" in changes && DictOf(h, Get(logic, "metadata")).Some? {
        var m := Obj(MergedMetadata(DictOf(h, Get(logic, "metadata")).value, changes["metadata"]));
        assert (logic + more)["metadata" := m] == (logic + plain)["metadata" := m][key := value];
      }
    }
  }

  /** A merge that fails at one change fails as a whole. */
  lemma PatchedFails(h: Host, logic: Dict, some: Dict, changes: Dict)
    requires Patched(h, logic, some).Err? && some.Keys <= changes.Keys
    ensures Patched(h, logic, changes) == Patched(h, logic, some)
  {
  }

  lemma NothingPatched(h: Host, logic: Dict)
    ensures Patched(h, logic, map[]) == Ok(logic)
  {
    assert logic + (map[] - {"metadata"}) == logic;
  }

  method ApplyPatch(h: Host, logic: Dict, changes: Dict) returns (r: Result<Dict, Fault>)
    ensures r == Patched(h, logic, changes)
  {
    hide Patched;
    r := Ok(logic);
    var todo := changes.Keys;
    assert changes - todo == map[];
    NothingPatched(h, logic);
    while todo != {}
      invariant todo <= changes.Keys
      invariant r.Ok? && r == Patched(h, logic, changes - todo)
      decreases |todo|
    {
      var key :| key in todo;
      ghost var sofar := changes - todo;
      r := ApplyChange(h, logic, sofar, r.value, key, changes[key]);
      assert changes - (todo - {key}) == sofar[key := changes[key]];
      if r.Err? {
        PatchedFails(h, logic, sofar[key := changes[key]], changes);
        return;
      }
      todo := todo - {key};
    }
    assert changes - {} == changes;
  }

  method ApplyChange(h: Host, ghost logic: Dict, ghost sofar: Dict, patched: Dict, key: string, value: Value)
    returns (r: Result<Dict, Fault>)
    requires key !in sofar && Patched(h, logic, sofar) == Ok(patched)
    ensures r == Patched(h, logic, sofar[key := value])
  {
    PatchedMore(h, logic, sofar, key, value);
    if key == "metadata" {
      var meta := DictOf(h, Get(patched, "metadata"));
      if meta.None? {
        return Err(NotADict);
      }
      return Ok(patched["metadata" := Obj(MergedMetadata(meta.value, value))]);
    }
    return Ok(patched[key := value]);
  }

  /** Entry by entry, one dict over another. */
  ghost predicate IsOver(under: Dict, over: Dict, result: Dict) {
    forall k: string ::
      if k in over then k in result && result[k] == over[k]
      else if k in under then k in result && result[k] == under[k]
      else k !in result
  }

  /** The merged logic: every change but that of the metadata replaces its entry, and metadata goes into the old
      metadata, entry by entry if it is a dict and under "value" otherwise. */
  lemma PatchMeans(h: Host, logic: Dict, changes: Dict)
    requires Patched(h, logic, changes).Ok?
    ensures var p := Patched(h, logic, changes).value;
            && IsOver(logic - {"metadata"}, changes - {"metadata"}, p - {"metadata"})
            && ("metadata" !in changes ==> Get(p, "metadata") == Get(logic, "metadata"))
            && ("metadata" in changes ==>
                  && DictOf(h, Get(logic, "metadata")).Some? && "metadata" in p && p["metadata"].Obj?
                  && IsOver(DictOf(h, Get(logic, "metadata")).value,
                            if changes["metadata"].Obj? then changes["metadata"].fields
                            else map["value" := changes["metadata"]],
                            p["metadata"].fields))
  {
    hide DictOf;
  }

  /** The last pair of a key decides. */
  ghost predicate LastPair(h: Host, items: seq<Value>, key: string, i: int) {
    && 0 <= i < |items| && PairOf(h, items[i]).Some? && PairOf(h, items[i]).value.0 == key
    && forall k :: i < k < |items| && PairOf(h, items[k]).Some? ==> PairOf(h, items[k]).value.0 != key
  }

  lemma {:induction false} DictOfPairsMeans(h: Host, items: seq<Value>, key: string)
    requires DictOfPairs(h, items).Some?
    ensures var d := DictOfPairs(h, items).value;
            if key in d then exists i :: LastPair(h, items, key, i) && d[key] == PairOf(h, items[i]).value.1
            else forall i :: 0 <= i < |items| && PairOf(h, items[i]).Some? ==> PairOf(h, items[i]).value.0 != key
  {
    hide PairOf;
    if |items| > 0 {
      var front := items[..|items| - 1];
      DictOfPairsMeans(h, front, key);
      assert forall i :: 0 <= i < |front| ==> front[i] == items[i];
      if PairOf(h, items[|front|]).value.0 == key {
        assert LastPair(h, items, key, |front|);
      } else if key in DictOfPairs(h, front).value {
        var i :| LastPair(h, front, key, i) && DictOfPairs(h, front).value[key] == PairOf(h, front[i]).value.1;
        assert LastPair(h, items, key, i);
      }
    }
  }

  // ----- what a rule-based patch guarantees -----

  /** The adapter itself raises exactly for employee tasks with a text of their own or an unreadable retry count. */
  lemma ProposalRaisesIff(h: Host, reason: string, logic: Dict, input: Dict, error: Option<string>)
    ensures ProposedChanges(h, reason, logic, input, [], error).Err? <==>
            && LogicType(h, logic) == EMPLOYEE
            && (|| StrOr(h, Or(Get(logic, "task_template"), Get(logic, "task")), "") != ""
                || (Truthy(Get(logic, "retry_count")) && h.toInt(Get(logic, "retry_count")).None?))
  {
  }

  /** The merge raises exactly when the logic carries metadata that dict() refuses. */
  lemma MergeRaisesIff(h: Host, reason: string, logic: Dict, input: Dict, history: seq<Dict>, error: Option<string>)
    requires ProposedChanges(h, reason, logic, input, history, error).Ok?
    ensures Patched(h, logic, ProposedChanges(h, reason, logic, input, history, error).value).Err? <==>
            !Dictable(Get(logic, "metadata"))
  {
    DictOfIff(h, Get(logic, "metadata"));
  }

  /** Logic patched into a template asks for nothing and renders. */
  lemma TemplateRuns(h: Host, attempt: nat, logic: Dict, input: Dict)
    requires LogicType(h, logic) == TEMPLATE && Get(logic, "required_fields") == List([])
    ensures ExecuteLogic(h, attempt, logic, input).Ok?
  {
    assert Listed(h, List([])) == Some({});
  }

  lemma TwoSteps(h: Host, attempt: nat, a: Dict, b: Dict, input: Dict, v: Value, w: Value)
    requires StepValue(h, attempt, 0, a, input) == Ok(v)
    requires StepValue(h, attempt, 1, b, input[OutputVar(h, a, 0) := v]) == Ok(w)
    ensures AfterSteps(h, attempt, [Obj(a), Obj(b)], 2, input) ==
            Ok(Progress(input[OutputVar(h, a, 0) := v][OutputVar(h, b, 1) := w],
                        map[TYPE_KEY := Str(PIPELINE)][OutputVar(h, a, 0) := v][OutputVar(h, b, 1) := w]))
  {
    var steps := [Obj(a), Obj(b)];
    assert AfterSteps(h, attempt, steps, 1, input) ==
           Ok(Progress(input[OutputVar(h, a, 0) := v], map[TYPE_KEY := Str(PIPELINE)][OutputVar(h, a, 0) := v]));
  }

  lemma RenderStepRuns(h: Host, attempt: nat, source: Dict, context: Dict)
    ensures RenderStep(h, source).Obj?
    ensures StepValue(h, attempt, 0, RenderStep(h, source).fields, context) ==
            Ok(Str(Render(h, StrOr(h, DynamicTemplate(source), ""), context)))
    ensures var name := StrOr(h, Get(source, "output_var"), "eskill_result");
            name != "" ==> OutputVar(h, RenderStep(h, source).fields, 0) == name
  {
    var step := RenderStep(h, source).fields;
    assert LogicType(h, step) == TEMPLATE;
    assert Get(step, "template") == DynamicTemplate(source);
  }

  lemma ReasonStepRuns(h: Host, attempt: nat, reason: string, context: Dict)
    ensures ReasonStep(reason).Obj?
    ensures StepValue(h, attempt, 1, ReasonStep(reason).fields, context) == Ok(Str(reason))
    ensures OutputVar(h, ReasonStep(reason).fields, 1) == "adaptation_reason"
  {
    var step := ReasonStep(reason).fields;
    assert LogicType(h, step) == SET_VALUE;
    assert Get(step, "value") == Str(reason);
  }

  /** The generated two-step pipeline runs, and its result holds the rendered template and the reason. */
  lemma GeneratedPipelineRuns(h: Host, attempt: nat, logic: Dict, source: Dict, reason: string, input: Dict)
    requires LogicType(h, logic) == PIPELINE && Get(logic, "required_fields") == List([])
    requires Get(logic, "steps") == List([RenderStep(h, source), ReasonStep(reason)])
    ensures var r := ExecuteLogic(h, attempt, logic, input);
            && r.Ok?
            && Get(r.value, "adaptation_reason") == Str(reason)
            && var name := StrOr(h, Get(source, "output_var"), "eskill_result");
               name != "" && name != "adaptation_reason" ==>
                 Get(r.value, name) == Str(Render(h, StrOr(h, DynamicTemplate(source), ""), input))
  {
    hide ExecuteLogic, StepValue, AfterSteps, OutputVar, Render, DynamicTemplate;
    RenderStepRuns(h, attempt, source, input);
    var a, b := RenderStep(h, source).fields, ReasonStep(reason).fields;
    var v := Str(Render(h, StrOr(h, DynamicTemplate(source), ""), input));
    ReasonStepRuns(h, attempt, reason, input[OutputVar(h, a, 0) := v]);
    TwoSteps(h, attempt, a, b, input, v, Str(reason));
    PipelineRuns(h, attempt, logic, [Obj(a), Obj(b)], input);
  }

  lemma NothingRequired(h: Host, logic: Dict, input: Dict)
    requires Get(logic, "required_fields") == List([])
    ensures RequiredFault(h, logic, input) == None
  {
    assert Listed(h, List([])) == Some({});
  }

  lemma PipelineRuns(h: Host, attempt: nat, logic: Dict, steps: seq<Value>, input: Dict)
    requires LogicType(h, logic) == PIPELINE && Get(logic, "required_fields") == List([])
    requires Get(logic, "steps") == List(steps) && steps != []
    requires AfterSteps(h, attempt, steps, |steps|, input).Ok?
    ensures ExecuteLogic(h, attempt, logic, input) == Ok(AfterSteps(h, attempt, steps, |steps|, input).value.outputs)
  {
    NothingRequired(h, logic, input);
    assert PipelineSteps(logic) == Ok(steps);
    var after := AfterSteps(h, attempt, steps, |steps|, input);
    assert PipelineResult(h, attempt, logic, input) == Ok(after.value.outputs);
  }

  /** A changed field of the merged logic is the patch's, any other the old logic's. */
  lemma PatchedField(h: Host, logic: Dict, changes: Dict, key: string)
    requires Patched(h, logic, changes).Ok? && key != "metadata"
    ensures Get(Patched(h, logic, changes).value, key) == if key in changes then changes[key] else Get(logic, key)
  {
  }

  /** What the rules change in logic that is no employee task. */
  ghost predicate RulesApplied(h: Host, reason: string, logic: Dict, changes: Dict) {
    && "required_fields" in changes && changes["required_fields"] == List([])
    && (if LogicType(h, logic) != TEMPLATE then "type" in changes && changes["type"] == Str(TEMPLATE)
        else if Truthy(Get(logic, "allow_steps")) then
          && "type" in changes && changes["type"] == Str(PIPELINE)
          && "steps" in changes && changes["steps"] == List([RenderStep(h, logic), ReasonStep(reason)])
        else "type" !in changes)
  }

  lemma RuleFields(h: Host, reason: string, logic: Dict, input: Dict, error: Option<string>)
    requires LogicType(h, logic) != EMPLOYEE
    ensures var r := ProposedChanges(h, reason, logic, input, [], error);
            r.Ok? && "metadata" in r.value && RulesApplied(h, reason, logic, r.value)
  {
  }

  /** Without a history to reuse, the patch of any logic whose type is not an employee task can be merged exactly if
      dict() takes the old metadata, and the merged logic runs on every input: unknown types, malformed pipelines and
      missing fields included. */
  lemma PatchedLogicRuns(h: Host, reason: string, logic: Dict, input: Dict, error: Option<string>,
                         attempt: nat, anyInput: Dict)
    requires LogicType(h, logic) != EMPLOYEE
    ensures var changes := ProposedChanges(h, reason, logic, input, [], error);
            && changes.Ok? && (Patched(h, logic, changes.value).Ok? <==> Dictable(Get(logic, "metadata")))
            && (Patched(h, logic, changes.value).Ok? ==>
                  ExecuteLogic(h, attempt, Patched(h, logic, changes.value).value, anyInput).Ok?)
  {
    RuleFields(h, reason, logic, input, error);
    var changes := ProposedChanges(h, reason, logic, input, [], error).value;
    MergeRaisesIff(h, reason, logic, input, [], error);
    if Patched(h, logic, changes).Ok? {
      RuledLogicRuns(h, reason, logic, changes, attempt, anyInput);
    }
  }

  /** The fields that the rules set decide that the merged logic runs. */
  lemma RuledLogicRuns(h: Host, reason: string, logic: Dict, changes: Dict, attempt: nat, input: Dict)
    requires LogicType(h, logic) != EMPLOYEE && RulesApplied(h, reason, logic, changes)
    requires Patched(h, logic, changes).Ok?
    ensures ExecuteLogic(h, attempt, Patched(h, logic, changes).value, input).Ok?
  {
    var patched := Patched(h, logic, changes).value;
    PatchedField(h, logic, changes, "required_fields");
    PatchedField(h, logic, changes, "type");
    PatchedField(h, logic, changes, "steps");
    if LogicType(h, logic) == TEMPLATE && Truthy(Get(logic, "allow_steps")) {
      GeneratedPipelineRuns(h, attempt, patched, logic, reason, input);
    } else {
      TemplateRuns(h, attempt, patched, input);
    }
  }
}
