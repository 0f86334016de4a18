/** JSON values as the skill runtime sees them, with Python's truthiness and string conversion. */
module ESkillValues {
  import opened Basics

  datatype Value =
    | Null
    | Bool(b: bool)
    | Int(n: int)
    | Real(r: real)
    | Str(s: string)
    | List(items: seq<Value>)
    | Obj(fields: map<string, Value>)

  type Dict = map<string, Value>

  /** The exceptions a skill can raise. */
  datatype Fault =
    | MissingInput
    | NotIterable
    | NotADict
    | MissingEmployee
    | StepsNotAList
    | StepNotADict
    | UnknownStepType
    | UnknownTool
    | UnknownLogicType
    | UndefinedName
    | NotANumber
    | VersionExists
    | NoActiveVersion
    | Outside

  predicate Truthy(v: Value) {
    match v
    case Null => false
    case Bool(b) => b
    case Int(n) => n != 0
    case Real(r) => r != 0.0
    case Str(s) => s != ""
    case List(items) => items != []
    case Obj(fields) => fields != map[]
  }

  /** dict.get(key) */
  function Get(d: Dict, key: string): Value {
    if key in d then d[key] else Null
  }

  /** `a or b` */
  function Or(a: Value, b: Value): Value {
    if Truthy(a) then a else b
  }

  /** The first key of a dict in its order of insertion, which a map does not show. */
  type KeyOrder = first: Dict -> string | forall d: Dict :: d != map[] ==> first(d) in d
    ghost witness d => if d == map[] then "" else var key :| key in d; key

  /** Everything outside the runtime, fixed for one run. `show` is str() on values that are not texts; `employee` and
      `vibe` are the calls to other services, which may return anything or raise, and may answer differently in each
      attempt of a run (first number) and each step of a pipeline (second number); `resolve` fills in references. */
  datatype Host = Host(
    show: Value -> string,
    toInt: Value -> Option<int>,
    firstKey: KeyOrder,
    same: (Value, Value) -> bool,
    resolve: (Value, Value, Dict) -> Value,
    sortedKeys: Dict -> Value,
    employee: (nat, nat, string, string, Dict) -> Result<Value, Fault>,
    vibe: (nat, nat, Dict, Dict) -> Result<Dict, Fault>)

  /** str(v) */
  function ToStr(h: Host, v: Value): string {
    if v.Str? then v.s else h.show(v)
  }

  /** str(a or default) */
  function StrOr(h: Host, a: Value, default: string): string {
    if Truthy(a) then ToStr(h, a) else default
  }
}
