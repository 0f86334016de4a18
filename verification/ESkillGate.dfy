/** The quality gate over an output: a list of issues and a score. */
module ESkillGate {
  import opened Basics
  import opened ESkillValues

  datatype Rule = Rule(key: string, op: string, value: Value) | NotARule

  /** The gate's clauses after conversion; absent ones are empty or zero. */
  datatype Gate = Gate(requiredKeys: seq<string>, minLength: int, containsAll: seq<string>, containsAny: seq<string>,
                       regex: string, rules: seq<Rule>, minScore: real)

  datatype Search = Found | Missed | Invalid

  datatype Issue =
    | MissingKey(key: string)
    | TooShort(length: nat)
    | MissingText(token: string)
    | MissingAnyText
    | RegexNotMatched
    | InvalidRegex
    | BusinessNotEmpty(key: string)
    | BusinessEquals(key: string)

  datatype Report = Report(passed: bool, score: real, issues: seq<Issue>)

  predicate StandsAt(text: string, token: string, i: nat) {
    i + |token| <= |text| && text[i..i + |token|] == token
  }

  /** `token in text` */
  predicate Contains(text: string, token: string) {
    exists i :: 0 <= i <= |text| && StandsAt(text, token, i)
  }

  // ----- the clauses, each on its own -----

  predicate KeysPresent(output: Dict, keys: seq<string>) {
    forall i :: 0 <= i < |keys| ==> keys[i] in output
  }

  predicate LongEnough(text: string, minLength: int) {
    minLength <= 0 || |text| >= minLength
  }

  predicate AllContained(text: string, tokens: seq<string>) {
    forall i :: 0 <= i < |tokens| ==> tokens[i] == "" || Contains(text, tokens[i])
  }

  predicate AnyContained(text: string, tokens: seq<string>) {
    tokens == [] || exists i :: 0 <= i < |tokens| && Contains(text, tokens[i])
  }

  predicate RuleHolds(h: Host, output: Dict, r: Rule) {
    r.NotARule? ||
    ((r.op == "not_empty" ==> Truthy(Get(output, r.key))) && (r.op == "equals" ==> h.same(Get(output, r.key), r.value)))
  }

  predicate RulesHold(h: Host, output: Dict, rules: seq<Rule>) {
    forall i :: 0 <= i < |rules| ==> RuleHolds(h, output, rules[i])
  }

  /** Every clause of the gate holds of the output, its text and the outcome of the pattern search. */
  predicate ClausesHold(h: Host, output: Dict, text: string, gate: Gate, search: Search) {
    && KeysPresent(output, gate.requiredKeys)
    && LongEnough(text, gate.minLength)
    && AllContained(text, gate.containsAll)
    && AnyContained(text, gate.containsAny)
    && (gate.regex == "" || search.Found?)
    && RulesHold(h, output, gate.rules)
  }

  predicate Passes(h: Host, output: Dict, text: string, gate: Gate, search: Search) {
    ClausesHold(h, output, text, gate, search) && gate.minScore <= 1.0
  }

  // ----- the report -----

  function MinReal(x: real, y: real): real {
    if y < x then y else x
  }

  /** What the gate finds wrong with an output. */
  ghost predicate Violates(h: Host, output: Dict, text: string, gate: Gate, search: Search, issue: Issue) {
    match issue
    case MissingKey(key) => key in gate.requiredKeys && key !in output
    case TooShort(length) => 0 < gate.minLength && length == |text| < gate.minLength
    case MissingText(token) => token in gate.containsAll && token != "" && !Contains(text, token)
    case MissingAnyText => gate.containsAny != [] && forall t :: t in gate.containsAny ==> !Contains(text, t)
    case RegexNotMatched => gate.regex != "" && search.Missed?
    case InvalidRegex => gate.regex != "" && search.Invalid?
    case _ => exists r :: r in gate.rules && Breaks(h, output, r, issue)
  }

  /** The rule is broken in the way the issue says. */
  predicate Breaks(h: Host, output: Dict, r: Rule, issue: Issue) {
    && r.Rule?
    && match issue
       case BusinessNotEmpty(key) => r.op == "not_empty" && r.key == key && !Truthy(Get(output, key))
       case BusinessEquals(key) => r.op == "equals" && r.key == key && !h.same(Get(output, key), r.value)
       case _ => false
  }

  /** The score an issue lowers the report to; a missing key alone does not lower it. */
  function Penalty(gate: Gate, issue: Issue): real {
    match issue
    case MissingKey(_) => 1.0
    case TooShort(length) => length as real / Max(gate.minLength, 1) as real
    case MissingAnyText => 0.7
    case RegexNotMatched => 0.7
    case InvalidRegex => 0.5
    case _ => 0.6
  }

  /** The score is the least an issue lowers it to, and one without such an issue. */
  ghost predicate Scored(gate: Gate, issues: seq<Issue>, score: real) {
    && 0.0 <= score <= 1.0
    && (forall x :: x in issues ==> score <= Penalty(gate, x))
    && (score == 1.0 || exists x :: x in issues && score == Penalty(gate, x))
  }

  lemma ScoredMore(gate: Gate, issues: seq<Issue>, score: real, x: Issue)
    requires Scored(gate, issues, score)
    ensures Scored(gate, issues + [x], MinReal(score, Penalty(gate, x)))
  {
    var all, low := issues + [x], MinReal(score, Penalty(gate, x));
    assert x in all;
    assert forall y :: y in issues ==> y in all;
    if low != 1.0 && low != Penalty(gate, x) {
      var y :| y in issues && score == Penalty(gate, y);
      assert y in all;
    }
  }

  /** The report lists exactly what is violated, and scores it; it passes exactly when every clause holds and the
      minimum score is within reach. */
  method QualityReport(h: Host, output: Dict, text: string, gate: Gate, search: Search) returns (r: Report)
    ensures r.passed <==> Passes(h, output, text, gate, search)
    ensures forall x :: x in r.issues <==> Violates(h, output, text, gate, search, x)
    ensures Scored(gate, r.issues, r.score)
  {
    hide Scored, Contains, ClausesHold, Breaks;
    var issues, score := CheckKeys(output, gate);
    issues, score := CheckLength(text, gate, issues, score);
    issues, score := CheckTokens(text, gate, issues, score);
    issues, score := CheckAny(text, gate, issues, score);
    issues, score := CheckRegex(gate, search, issues, score);
    issues, score := CheckRules(h, output, gate, issues, score);
    FullScore(gate, issues, score);
    OnlyRulesBreak(h, output);
    NoIssueIff(h, output, text, gate, search, issues);
    r := Report(issues == [] && score >= gate.minScore, score, issues);
  }

  lemma OnlyRulesBreak(h: Host, output: Dict)
    ensures forall r, x :: Breaks(h, output, r, x) ==> x.BusinessNotEmpty? || x.BusinessEquals?
  {
  }

  lemma FullScore(gate: Gate, issues: seq<Issue>, score: real)
    requires Scored(gate, issues, score)
    ensures issues == [] ==> score == 1.0
    ensures score <= 1.0
  {
  }

  method CheckLength(text: string, gate: Gate, issues: seq<Issue>, score: real)
    returns (all: seq<Issue>, low: real)
    requires Scored(gate, issues, score)
    ensures Scored(gate, all, low)
    ensures forall x ::
              x in all <==> x in issues || (x == TooShort(|text|) && 0 < gate.minLength && |text| < gate.minLength)
  {
    all, low := issues, score;
    if gate.minLength > 0 {
      if |text| < gate.minLength {
        ScoredMore(gate, issues, score, TooShort(|text|));
        all := issues + [TooShort(|text|)];
        low := MinReal(score, |text| as real / Max(gate.minLength, 1) as real);
      }
    }
  }

  method CheckRegex(gate: Gate, search: Search, issues: seq<Issue>, score: real)
    returns (all: seq<Issue>, low: real)
    requires Scored(gate, issues, score)
    ensures Scored(gate, all, low)
    ensures forall x :: x in all <==> x in issues || (gate.regex != "" && ((x.RegexNotMatched? && search.Missed?) ||
                                                                          (x.InvalidRegex? && search.Invalid?)))
  {
    all, low := issues, score;
    if gate.regex != "" {
      match search {
        case Found =>
        case Missed =>
          ScoredMore(gate, issues, score, RegexNotMatched);
          all := issues + [RegexNotMatched];
          low := MinReal(score, 0.7);
        case Invalid =>
          ScoredMore(gate, issues, score, InvalidRegex);
          all := issues + [InvalidRegex];
          low := MinReal(score, 0.5);
      }
    }
  }

  lemma NoIssueIff(h: Host, output: Dict, text: string, gate: Gate, search: Search, issues: seq<Issue>)
    requires forall x :: x in issues <==> Violates(h, output, text, gate, search, x)
    ensures issues == [] <==> ClausesHold(h, output, text, gate, search)
  {
    hide Violates, ClausesHold;
    if issues == [] {
      NothingViolated(h, output, text, gate, search);
    } else {
      SomethingViolated(h, output, text, gate, search, issues[0]);
    }
  }

  lemma SomethingViolated(h: Host, output: Dict, text: string, gate: Gate, search: Search, issue: Issue)
    requires Violates(h, output, text, gate, search, issue)
    ensures !ClausesHold(h, output, text, gate, search)
  {
    hide Contains;
    if issue.BusinessNotEmpty? || issue.BusinessEquals? {
      var r :| r in gate.rules && Breaks(h, output, r, issue);
      assert !RuleHolds(h, output, r);
    }
  }

  lemma NothingViolated(h: Host, output: Dict, text: string, gate: Gate, search: Search)
    requires forall x :: !Violates(h, output, text, gate, search, x)
    ensures ClausesHold(h, output, text, gate, search)
  {
    hide Contains;
    forall i | 0 <= i < |gate.requiredKeys| ensures gate.requiredKeys[i] in output {
      assert !Violates(h, output, text, gate, search, MissingKey(gate.requiredKeys[i]));
    }
    assert !Violates(h, output, text, gate, search, TooShort(|text|));
    forall i | 0 <= i < |gate.containsAll| ensures gate.containsAll[i] == "" || Contains(text, gate.containsAll[i]) {
      assert !Violates(h, output, text, gate, search, MissingText(gate.containsAll[i]));
    }
    assert !Violates(h, output, text, gate, search, MissingAnyText);
    assert !Violates(h, output, text, gate, search, RegexNotMatched);
    assert !Violates(h, output, text, gate, search, InvalidRegex);
    forall i | 0 <= i < |gate.rules| ensures RuleHolds(h, output, gate.rules[i]) {
      var r := gate.rules[i];
      if r.Rule? {
        assert !Violates(h, output, text, gate, search, BusinessNotEmpty(r.key));
        assert !Violates(h, output, text, gate, search, BusinessEquals(r.key));
        assert !Breaks(h, output, r, BusinessNotEmpty(r.key)) && !Breaks(h, output, r, BusinessEquals(r.key));
      }
    }
  }

  method CheckKeys(output: Dict, gate: Gate) returns (issues: seq<Issue>, score: real)
    ensures forall x :: x in issues <==> x.MissingKey? && x.key in gate.requiredKeys && x.key !in output
    ensures Scored(gate, issues, score)
  {
    issues, score := [], 1.0;
    for i := 0 to |gate.requiredKeys|
      invariant forall x :: x in issues <==> x.MissingKey? && x.key in gate.requiredKeys[..i] && x.key !in output
      invariant score == 1.0 && Scored(gate, issues, score)
    {
      assert gate.requiredKeys[..i + 1] == gate.requiredKeys[..i] + [gate.requiredKeys[i]];
      if gate.requiredKeys[i] !in output {
        ScoredMore(gate, issues, score, MissingKey(gate.requiredKeys[i]));
        issues := issues + [MissingKey(gate.requiredKeys[i])];
      }
    }
    assert gate.requiredKeys[..|gate.requiredKeys|] == gate.requiredKeys;
  }

  method CheckTokens(text: string, gate: Gate, issues: seq<Issue>, score: real)
    returns (all: seq<Issue>, low: real)
    requires Scored(gate, issues, score)
    ensures Scored(gate, all, low)
    ensures forall x :: x in all <==> x in issues || (x.MissingText? && x.token in gate.containsAll && x.token != "" &&
                                                      !Contains(text, x.token))
  {
    all, low := issues, score;
    for i := 0 to |gate.containsAll|
      invariant Scored(gate, all, low)
      invariant forall x :: x in all <==>
                  x in issues || (x.MissingText? && x.token in gate.containsAll[..i] && x.token != "" &&
                                  !Contains(text, x.token))
    {
      var token := gate.containsAll[i];
      assert gate.containsAll[..i + 1] == gate.containsAll[..i] + [token];
      if token != "" && !Contains(text, token) {
        ScoredMore(gate, all, low, MissingText(token));
        all := all + [MissingText(token)];
        low := MinReal(low, 0.6);
      }
    }
    assert gate.containsAll[..|gate.containsAll|] == gate.containsAll;
  }

  method CheckAny(text: string, gate: Gate, issues: seq<Issue>, score: real)
    returns (all: seq<Issue>, low: real)
    requires Scored(gate, issues, score)
    ensures Scored(gate, all, low)
    ensures forall x :: x in all <==> x in issues || (x.MissingAnyText? && gate.containsAny != [] &&
                                                      forall t :: t in gate.containsAny ==> !Contains(text, t))
  {
    all, low := issues, score;
    var some := gate.containsAny == [];
    for i := 0 to |gate.containsAny|
      invariant some <==> gate.containsAny == [] || exists k :: 0 <= k < i && Contains(text, gate.containsAny[k])
    {
      if Contains(text, gate.containsAny[i]) {
        some := true;
      }
    }
    if !some {
      ScoredMore(gate, issues, score, MissingAnyText);
      all := issues + [MissingAnyText];
      low := MinReal(score, 0.7);
    }
  }

  method CheckRules(h: Host, output: Dict, gate: Gate, issues: seq<Issue>, score: real)
    returns (all: seq<Issue>, low: real)
    requires Scored(gate, issues, score)
    ensures Scored(gate, all, low)
    ensures forall x :: x in all <==> x in issues || exists r :: r in gate.rules && Breaks(h, output, r, x)
  {
    hide Scored, Truthy;
    all, low := issues, score;
    for i := 0 to |gate.rules|
      invariant Scored(gate, all, low)
      invariant forall x :: x in all <==> x in issues || exists r :: r in gate.rules[..i] && Breaks(h, output, r, x)
    {
      ghost var before := all;
      var rule := gate.rules[i];
      match rule {
        case NotARule =>
        case Rule(key, op, value) =>
          if op == "not_empty" && !Truthy(Get(output, key)) {
            ScoredMore(gate, all, low, BusinessNotEmpty(key));
            all := all + [BusinessNotEmpty(key)];
            low := MinReal(low, 0.6);
          }
          if op == "equals" && !h.same(Get(output, key), value) {
            ScoredMore(gate, all, low, BusinessEquals(key));
            all := all + [BusinessEquals(key)];
            low := MinReal(low, 0.6);
          }
      }
      assert forall x :: x in all <==> x in before || Breaks(h, output, rule, x);
      assert gate.rules[..i + 1] == gate.rules[..i] + [rule];
      OneMoreRule(h, output, gate.rules[..i], rule);
    }
    assert gate.rules[..|gate.rules|] == gate.rules;
  }

  lemma OneMoreRule(h: Host, output: Dict, rules: seq<Rule>, rule: Rule)
    ensures forall x :: (exists r :: r in rules + [rule] && Breaks(h, output, r, x)) <==>
                        (exists r :: r in rules && Breaks(h, output, r, x)) || Breaks(h, output, rule, x)
  {
    assert rule in rules + [rule];
    assert forall r :: r in rules ==> r in rules + [rule];
  }
}
