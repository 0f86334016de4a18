/** The interpreter of skill logic: a template, a task for an employee, generated code, or a pipeline of steps. */
module ESkillInterpreter {
  import opened Basics
  import opened Decimal
  import opened ESkillValues
  import opened ESkillTemplate

  const TEMPLATE := "template_transform"
  const EMPLOYEE := "employee_task"
  const PIPELINE := "pipeline"
  const VIBE_CODE := "vibe_code"
  const VIBE_WORKFLOW := "vibe_workflow"
  const SET_VALUE := "set_value"
  const TOOL_CALL := "tool_call"
  const TYPE_KEY := "eskill_logic_type"

  function LogicType(h: Host, logic: Dict): string {
    StrOr(h, Get(logic, "type"), TEMPLATE)
  }

  predicate IsVibe(kind: string) {
    kind == VIBE_CODE || kind == VIBE_WORKFLOW
  }

  /** The names a required_fields entry lists: a text lists its characters, a dict its keys. */
  function Listed(h: Host, v: Value): Option<set<string>> {
    if !Truthy(v) then Some({})
    else match v
      case List(items) => Some(set i | 0 <= i < |items| :: ToStr(h, items[i]))
      case Str(s) => Some(set i | 0 <= i < |s| :: [s[i]])
      case Obj(fields) => Some(fields.Keys)
      case _ => None
  }

  predicate Lacks(input: Dict, key: string) {
    Get(input, key) == Null || Get(input, key) == Str("")
  }

  /** The check in front of every logic. */
  function RequiredFault(h: Host, logic: Dict, input: Dict): Option<Fault> {
    var names := Listed(h, Get(logic, "required_fields"));
    if names.None? then Some(NotIterable)
    else if exists k :: k in names.value && Lacks(input, k) then Some(MissingInput)
    else None
  }

  /** One logic of any type but a pipeline, as attempt `attempt`, step `step`. */
  function ExecuteSimple(h: Host, attempt: nat, step: nat, logic: Dict, input: Dict): Result<Dict, Fault> {
    var kind := LogicType(h, logic);
    var fault := RequiredFault(h, logic, input);
    if fault.Some? then Err(fault.value)
    else if kind == TEMPLATE then
      var outputVar := StrOr(h, Get(logic, "output_var"), "eskill_result");
      Ok(map[outputVar := Str(Render(h, StrOr(h, Get(logic, "template"), ""), input))][TYPE_KEY := Str(kind)])
    else if kind == EMPLOYEE then
      var employeeId := StrOr(h, Get(logic, "employee_id"), "");
      if employeeId == "" then Err(MissingEmployee)
      else
        var task := Render(h, StrOr(h, Or(Get(logic, "task_template"), Get(logic, "task")), ""), input);
        match h.employee(attempt, step, employeeId, task, input)
        case Err(e) => Err(e)
        case Ok(result) =>
          var base := map["employee_result" := result, TYPE_KEY := Str(kind)];
          var mapped := h.resolve(Or(Get(logic, "output_mapping"), Obj(map[])), result, input);
          Ok(if mapped.Obj? then base + mapped.fields else base)
    else if IsVibe(kind) then h.vibe(attempt, step, logic, input)
    else Err(UnknownLogicType)
  }

  /** Logic of every type asks for its fields first: one that is missing, None or empty is a fault, and logic that runs
      has all of them. */
  lemma RequiredFirst(h: Host, attempt: nat, logic: Dict, input: Dict)
    ensures (exists k :: Requires(h, logic, k) && Lacks(input, k)) ==>
              ExecuteLogic(h, attempt, logic, input) == Err(MissingInput)
    ensures ExecuteLogic(h, attempt, logic, input).Ok? ==>
              forall k :: Requires(h, logic, k) ==> k in input && input[k] != Null && input[k] != Str("")
  {
    hide PipelineResult, Render;
    var names := Listed(h, Get(logic, "required_fields"));
    if k :| Requires(h, logic, k) && Lacks(input, k) {
      assert names.Some? && k in names.value;
    }
    if names.None? {
      assert RequiredFault(h, logic, input) == Some(NotIterable);
    } else {
      assert forall k :: Requires(h, logic, k) ==> k in names.value;
    }
  }

  /** The field is one of the texts listed under required_fields. */
  ghost predicate Requires(h: Host, logic: Dict, key: string) {
    && "required_fields" in logic && logic["required_fields"].List?
    && exists i :: 0 <= i < |logic["required_fields"].items| && ToStr(h, logic["required_fields"].items[i]) == key
  }

  /** An employee task needs an employee, and returns the service's result under the mapped entries. */
  lemma EmployeeOutputMeans(h: Host, attempt: nat, logic: Dict, input: Dict)
    requires RequiredFault(h, logic, input) == None && LogicType(h, logic) == "employee_task"
    ensures var r := ExecuteLogic(h, attempt, logic, input);
            && (StrOr(h, Get(logic, "employee_id"), "") == "" ==> r == Err(MissingEmployee))
            && (r.Ok? ==> EmployeeOutput(h, attempt, logic, input, r.value))
  {
    hide Render, RequiredFault;
  }

  /** What other simple types of logic return: a template its rendered text, vibe logic what its service returns; there
      are no other types. */
  lemma OutputMeans(h: Host, attempt: nat, logic: Dict, input: Dict)
    requires RequiredFault(h, logic, input) == None && LogicType(h, logic) != PIPELINE
    ensures var r, kind := ExecuteLogic(h, attempt, logic, input), LogicType(h, logic);
            && (kind == "template_transform" ==>
                  var name := StrOr(h, Get(logic, "output_var"), "eskill_result");
                  && r.Ok? && r.value.Keys == {name, "eskill_logic_type"}
                  && r.value["eskill_logic_type"] == Str("template_transform")
                  && (name != "eskill_logic_type" ==>
                        r.value[name] == Str(Render(h, StrOr(h, Get(logic, "template"), ""), input))))
            && (kind == "vibe_code" || kind == "vibe_workflow" ==> r == h.vibe(attempt, 0, logic, input))
            && (kind !in {"template_transform", "employee_task", "vibe_code", "vibe_workflow"} ==>
                  r == Err(UnknownLogicType))
  {
    hide Render, RequiredFault;
  }

  /** The employee was named, did the rendered task, and its result stands unless the mapping has an entry for it. */
  ghost predicate EmployeeOutput(h: Host, attempt: nat, logic: Dict, input: Dict, output: Dict) {
    var id := StrOr(h, Get(logic, "employee_id"), "");
    var text := if Truthy(Get(logic, "task_template")) then Get(logic, "task_template") else Get(logic, "task");
    var result := h.employee(attempt, 0, id, Render(h, StrOr(h, text, ""), input), input);
    && id != "" && result.Ok?
    && var mapping := if Truthy(Get(logic, "output_mapping")) then Get(logic, "output_mapping") else Obj(map[]);
       var mapped := h.resolve(mapping, result.value, input);
       forall k: string ::
         if mapped.Obj? && k in mapped.fields then k in output && output[k] == mapped.fields[k]
         else if k == "employee_result" then k in output && output[k] == result.value
         else if k == "eskill_logic_type" then k in output && output[k] == Str("employee_task")
         else k !in output
  }

  // ----- pipelines -----

  function OutputVar(h: Host, step: Dict, i: nat): string {
    StrOr(h, Or(Get(step, "output_var"), Get(step, "id")), "step_" + Digits(i))
  }

  function ToolValue(h: Host, step: Dict, context: Dict): Result<Value, Fault> {
    var tool := StrOr(h, Get(step, "tool"), "");
    if tool == "echo" then Ok(h.resolve(Or(Get(step, "args"), Obj(context)), Obj(context), context))
    else if tool == "extract_keys" then Ok(h.sortedKeys(context))
    else Err(UnknownTool)
  }

  /** What a step computes from the context before it. */
  function StepValue(h: Host, attempt: nat, i: nat, step: Dict, context: Dict): Result<Value, Fault> {
    var kind := LogicType(h, step);
    if kind == TEMPLATE then Ok(Str(Render(h, StrOr(h, Get(step, "template"), ""), context)))
    else if kind == SET_VALUE then Ok(Get(step, "value"))
    else if kind == TOOL_CALL then ToolValue(h, step, context)
    else if kind == EMPLOYEE then
      match ExecuteSimple(h, attempt, i, map["type" := Str(EMPLOYEE)] + step, context)
      case Err(e) => Err(e)
      case Ok(out) => Ok(Get(out, "employee_result"))
    else if IsVibe(kind) then
      match ExecuteSimple(h, attempt, i, map["type" := Str(kind)] + step, context)
      case Err(e) => Err(e)
      case Ok(out) => Ok(Or(Get(out, "vibe_run"), Or(Get(out, "vibe_workflow_run"), Obj(out))))
    else Err(UnknownStepType)
  }

  datatype Progress = Progress(context: Dict, outputs: Dict)

  /** The first n steps. */
  function AfterSteps(h: Host, attempt: nat, steps: seq<Value>, n: nat, input: Dict): Result<Progress, Fault>
    requires n <= |steps|
  {
    if n == 0 then Ok(Progress(input, map[TYPE_KEY := Str(PIPELINE)]))
    else
      match AfterSteps(h, attempt, steps, n - 1, input)
      case Err(e) => Err(e)
      case Ok(p) =>
        if !steps[n - 1].Obj? then Err(StepNotADict)
        else
          var step := steps[n - 1].fields;
          match StepValue(h, attempt, n - 1, step, p.context)
          case Err(e) => Err(e)
          case Ok(v) =>
            var name := OutputVar(h, step, n - 1);
            Ok(Progress(p.context[name := v], p.outputs[name := v]))
  }

  function PipelineSteps(logic: Dict): Result<seq<Value>, Fault> {
    var steps := Or(Get(logic, "steps"), List([]));
    if steps.List? then Ok(steps.items) else Err(StepsNotAList)
  }

  function PipelineResult(h: Host, attempt: nat, logic: Dict, input: Dict): Result<Dict, Fault> {
    match PipelineSteps(logic)
    case Err(e) => Err(e)
    case Ok(steps) =>
      match AfterSteps(h, attempt, steps, |steps|, input)
      case Err(e) => Err(e)
      case Ok(p) => Ok(p.outputs)
  }

  function ExecuteLogic(h: Host, attempt: nat, logic: Dict, input: Dict): Result<Dict, Fault> {
    if LogicType(h, logic) == PIPELINE then
      var fault := RequiredFault(h, logic, input);
      if fault.Some? then Err(fault.value) else PipelineResult(h, attempt, logic, input)
    else ExecuteSimple(h, attempt, 0, logic, input)
  }

  /** The loop over the steps, stopping at the first fault. */
  method ExecutePipeline(h: Host, attempt: nat, logic: Dict, input: Dict) returns (r: Result<Dict, Fault>)
    ensures r == PipelineResult(h, attempt, logic, input)
  {
    var context, outputs := input, map[TYPE_KEY := Str(PIPELINE)];
    var raw := Or(Get(logic, "steps"), List([]));
    if !raw.List? {
      return Err(StepsNotAList);
    }
    var steps := raw.items;
    var i := 0;
    while i < |steps|
      invariant 0 <= i <= |steps|
      invariant AfterSteps(h, attempt, steps, i, input) == Ok(Progress(context, outputs))
    {
      if !steps[i].Obj? {
        AfterStepsFault(h, attempt, steps, i + 1, |steps|, input);
        return Err(StepNotADict);
      }
      var step := steps[i].fields;
      var value := StepValue(h, attempt, i, step, context);
      if value.Err? {
        AfterStepsFault(h, attempt, steps, i + 1, |steps|, input);
        return Err(value.error);
      }
      var name := OutputVar(h, step, i);
      outputs := outputs[name := value.value];
      context := context[name := value.value];
      i := i + 1;
    }
    return Ok(outputs);
  }

  /** What the steps of a pipeline compute: a rendered text, a constant, the context or its keys, an employee's result,
      or a vibe run; other types and other tools are faults. */
  lemma StepMeans(h: Host, attempt: nat, i: nat, step: Dict, context: Dict)
    ensures var r, kind := StepValue(h, attempt, i, step, context), LogicType(h, step);
            && (kind == "template_transform" ==>
                  r == Ok(Str(Render(h, StrOr(h, Get(step, "template"), ""), context))))
            && (kind == "set_value" ==> r == Ok(if "value" in step then step["value"] else Null))
            && (kind == "tool_call" ==>
                  var tool := StrOr(h, Get(step, "tool"), "");
                  && (tool == "extract_keys" ==> r == Ok(h.sortedKeys(context)))
                  && (tool == "echo" && !Truthy(Get(step, "args")) ==>
                        r == Ok(h.resolve(Obj(context), Obj(context), context)))
                  && (tool == "echo" && Truthy(Get(step, "args")) ==>
                        r == Ok(h.resolve(Get(step, "args"), Obj(context), context)))
                  && (tool != "echo" && tool != "extract_keys" ==> r == Err(UnknownTool)))
            && (kind !in {"template_transform", "set_value", "tool_call", "employee_task", "vibe_code", "vibe_workflow"}
                ==> r == Err(UnknownStepType))
  {
    hide Render, ExecuteSimple;
  }

  /** A fault in the first steps is the pipeline's. */
  lemma {:induction false} AfterStepsFault(h: Host, attempt: nat, steps: seq<Value>, m: nat, n: nat, input: Dict)
    requires m <= n <= |steps| && AfterSteps(h, attempt, steps, m, input).Err?
    ensures AfterSteps(h, attempt, steps, n, input) == AfterSteps(h, attempt, steps, m, input)
  {
    if m < n {
      AfterStepsFault(h, attempt, steps, m, n - 1, input);
    }
  }

  /** The names the first n steps write. */
  function WrittenNames(h: Host, steps: seq<Value>, n: nat): set<string>
    requires n <= |steps|
  {
    if n == 0 then {}
    else WrittenNames(h, steps, n - 1) +
         if steps[n - 1].Obj? then {OutputVar(h, steps[n - 1].fields, n - 1)} else {}
  }

  /** What a pipeline returns is what its later steps read: on every name written so far, outputs and context agree;
      every other name still has its input value, and the outputs hold nothing else but the type. */
  lemma {:induction false} OutputsAgreeWithContext(h: Host, attempt: nat, steps: seq<Value>, n: nat, input: Dict)
    requires n <= |steps| && AfterSteps(h, attempt, steps, n, input).Ok?
    ensures var p, written := AfterSteps(h, attempt, steps, n, input).value, WrittenNames(h, steps, n);
            && p.outputs.Keys == written + {TYPE_KEY}
            && p.context.Keys == input.Keys + written
            && (forall k :: k in written ==> p.outputs[k] == p.context[k])
            && (forall k :: k in input && k !in written ==> p.context[k] == input[k])
            && (TYPE_KEY !in written ==> p.outputs[TYPE_KEY] == Str(PIPELINE))
  {
    hide StepValue, OutputVar;
    if n > 0 {
      OutputsAgreeWithContext(h, attempt, steps, n - 1, input);
    }
  }
}
