/** string.Template.safe_substitute, and the rendering of a skill's templates. */
module ESkillTemplate {
  import opened Text
  import opened ESkillValues

  predicate IsNameStart(c: char) {
    'a' <= c <= 'z' || 'A' <= c <= 'Z' || c == '_'
  }

  predicate IsNameChar(c: char) {
    IsNameStart(c) || '0' <= c <= '9'
  }

  /** How many characters at the front are name characters. */
  function Run(t: string): (n: nat)
    ensures n <= |t|
  {
    if |t| > 0 && IsNameChar(t[0]) then 1 + Run(t[1..]) else 0
  }

  /** The length of the identifier at the front, 0 if there is none. */
  function NameLength(t: string): (n: nat)
    ensures n <= |t|
  {
    if |t| > 0 && IsNameStart(t[0]) then Run(t) else 0
  }

  /** A placeholder without a value, and a stray dollar sign, stay as they are. */
  function Substitute(t: string, values: map<string, string>): string {
    if |t| == 0 then []
    else if t[0] != '$' then [t[0]] + Substitute(t[1..], values)
    else if |t| > 1 && t[1] == '$' then ['$'] + Substitute(t[2..], values)
    else
      var n := NameLength(t[1..]);
      if n > 0 then
        (if t[1..n + 1] in values then values[t[1..n + 1]] else t[..n + 1]) + Substitute(t[n + 1..], values)
      else if |t| > 1 && t[1] == '{' then
        var m := NameLength(t[2..]);
        if m > 0 && m + 2 < |t| && t[m + 2] == '}' then
          (if t[2..m + 2] in values then values[t[2..m + 2]] else t[..m + 3]) + Substitute(t[m + 3..], values)
        else ['$'] + Substitute(t[1..], values)
      else ['$'] + Substitute(t[1..], values)
  }

  /** Missing values render as nothing. */
  function Flat(h: Host, values: Dict): map<string, string> {
    map k | k in values :: if values[k].Null? then "" else ToStr(h, values[k])
  }

  /** Substitute, then make every run of whitespace one blank and strip. */
  function Render(h: Host, template: string, values: Dict): string {
    Words(Substitute(template, Flat(h, values)))
  }

  /** Text without a dollar sign is not touched, wherever it stands before the first placeholder. */
  lemma {:induction false} LiteralPrefix(lit: string, t: string, values: map<string, string>)
    requires '$' !in lit
    ensures Substitute(lit + t, values) == lit + Substitute(t, values)
  {
    if |lit| == 0 {
      assert lit + t == t;
    } else {
      assert (lit + t)[1..] == lit[1..] + t;
      assert lit[0] in lit;
      LiteralPrefix(lit[1..], t, values);
    }
  }

  lemma {:induction false} RunOfName(name: string, rest: string)
    requires forall i :: 0 <= i < |name| ==> IsNameChar(name[i])
    requires |rest| > 0 ==> !IsNameChar(rest[0])
    ensures Run(name + rest) == |name|
  {
    if |name| > 0 {
      assert (name + rest)[1..] == name[1..] + rest;
      RunOfName(name[1..], rest);
    } else {
      assert name + rest == rest;
    }
  }

  predicate IsName(name: string) {
    |name| > 0 && IsNameStart(name[0]) && forall i :: 0 <= i < |name| ==> IsNameChar(name[i])
  }

  /** A braced placeholder gives way to its value. */
  lemma BracedPlaceholder(name: string, rest: string, values: map<string, string>)
    requires IsName(name)
    ensures Substitute("${" + name + "}" + rest, values) ==
            (if name in values then values[name] else "${" + name + "}") + Substitute(rest, values)
  {
    var t := "${" + name + "}" + rest;
    assert t[1] == '{' && t[2..] == name + ("}" + rest);
    RunOfName(name, "}" + rest);
    assert t[2..][0] == name[0];
    assert t[2..|name| + 2] == name;
    assert t[..|name| + 3] == "${" + name + "}";
    assert t[|name| + 3..] == rest;
    assert t[1..][0] == '{';
  }

  /** So does one without braces, up to the first character that is not part of a name. */
  lemma PlainPlaceholder(name: string, rest: string, values: map<string, string>)
    requires IsName(name) && (|rest| > 0 ==> !IsNameChar(rest[0]))
    ensures Substitute("$" + name + rest, values) ==
            (if name in values then values[name] else "$" + name) + Substitute(rest, values)
  {
    var t := "$" + name + rest;
    assert t[1..] == name + rest;
    RunOfName(name, rest);
    assert t[1..][0] == name[0];
    assert t[1..|name| + 1] == name;
    assert t[..|name| + 1] == "$" + name;
    assert t[|name| + 1..] == rest;
  }

  /** Two dollar signs are one; a single one in front of anything else stays. */
  lemma DollarSigns(rest: string, values: map<string, string>)
    ensures Substitute("$$" + rest, values) == "$" + Substitute(rest, values)
    ensures |rest| == 0 || (!IsNameStart(rest[0]) && rest[0] != '{' && rest[0] != '$') ==>
              Substitute("$" + rest, values) == "$" + Substitute(rest, values)
  {
    assert ("$$" + rest)[2..] == rest;
    assert ("$" + rest)[1..] == rest;
    if |rest| > 0 {
      assert ("$" + rest)[1] == rest[0];
    }
  }

  lemma {:induction false} SquashTwice(s: string)
    ensures Squash(Squash(s)) == Squash(s)
  {
    if |s| > 0 {
      SquashTwice(s[1..]);
      SquashHead(s[1..]);
      var q := Squash(s[1..]);
      if !(IsSpace(s[0]) && |s| > 1 && IsSpace(s[1])) {
        var c := if IsSpace(s[0]) then ' ' else s[0];
        assert Squash(s) == [c] + q;
        assert ([c] + q)[1..] == q;
        if |q| > 0 {
          assert ([c] + q)[1] == q[0];
        }
      }
    }
  }

  /** A rendered text is one line of words with single blanks between them; rendering it as words again changes
      nothing. */
  lemma RenderedIsTidy(h: Host, template: string, values: Dict)
    ensures var r := Render(h, template, values);
            Trimmed(r) && Squash(r) == r && Words(r) == r
  {
    var q := Squash(Substitute(template, Flat(h, values)));
    var a, b := StripSlice(q);
    SquashTwice(Substitute(template, Flat(h, values)));
    SquashRStrip(LStrip(q));
    SquashLStrip(q);
    StripEnds(Strip(q));
  }

  const FALLBACK_TEMPLATE := "Dynamic result: ${details}"

  const DETAILS := "${details}"

  lemma DetailsPlaceholder(values: map<string, string>)
    ensures Substitute(DETAILS, values) == if "details" in values then values["details"] else DETAILS
  {
    assert DETAILS == "${" + "details" + "}" + [];
    var name := "details";
    assert name[0] == 'd' && name[1] == 'e' && name[2] == 't' && name[3] == 'a';
    assert name[4] == 'i' && name[5] == 'l' && name[6] == 's';
    BracedPlaceholder(name, [], values);
    assert Substitute([], values) == [];
  }

  lemma FallbackSubstitution(values: map<string, string>)
    ensures Substitute(FALLBACK_TEMPLATE, values) ==
            "Dynamic result: " + if "details" in values then values["details"] else DETAILS
  {
    var lit := "Dynamic result: ";
    assert FALLBACK_TEMPLATE == lit + DETAILS;
    assert forall i :: 0 <= i < |lit| ==> lit[i] != '$';
    LiteralPrefix(lit, DETAILS, values);
    DetailsPlaceholder(values);
  }

  /** The adapter's last resort shows the details it was given. */
  lemma FallbackShowsDetails(h: Host, values: Dict)
    ensures Render(h, FALLBACK_TEMPLATE, values) ==
            Words("Dynamic result: " +
                  if "details" !in values then DETAILS
                  else if values["details"].Null? then "" else ToStr(h, values["details"]))
  {
    FallbackSubstitution(Flat(h, values));
  }
}
