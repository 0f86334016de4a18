/** The text normaliser every uploaded document passes through, and the law that a second pass is a no-op. */
module Normalizer {
  import opened Text

  predicate IsBlank(c: char) {
    c == ' ' || c == '\t'
  }

  /** str.replace("\r\n", "\n") */
  function CrLfToLf(s: string): string {
    if |s| == 0 then []
    else if |s| > 1 && s[0] == '\r' && s[1] == '\n' then ['\n'] + CrLfToLf(s[2..])
    else [s[0]] + CrLfToLf(s[1..])
  }

  /** str.replace("\r", "\n") */
  function CrToLf(s: string): string {
    if |s| == 0 then []
    else [if s[0] == '\r' then '\n' else s[0]] + CrToLf(s[1..])
  }

  /** re.sub(r"[ \t]+", " ", s) */
  function CollapseBlanks(s: string): string {
    if |s| == 0 then []
    else if !IsBlank(s[0]) then [s[0]] + CollapseBlanks(s[1..])
    else if |s| > 1 && IsBlank(s[1]) then CollapseBlanks(s[1..])
    else [' '] + CollapseBlanks(s[1..])
  }

  /** re.sub(r"\n{3,}", "\n\n", s): the front newline of three adjacent ones is dropped until two are left. */
  function CollapseNewlines(s: string): string {
    if |s| == 0 then []
    else if |s| > 2 && s[0] == '\n' && s[1] == '\n' && s[2] == '\n' then CollapseNewlines(s[1..])
    else [s[0]] + CollapseNewlines(s[1..])
  }

  function NormalizeText(text: string): string {
    Strip(CollapseNewlines(CollapseBlanks(CrToLf(CrLfToLf(text)))))
  }

  // ----- the canonical form -----

  predicate NoReturns(s: string) {
    forall i :: 0 <= i < |s| ==> s[i] != '\r'
  }

  predicate NoTabs(s: string) {
    forall i :: 0 <= i < |s| ==> s[i] != '\t'
  }

  predicate NoBlankPairs(s: string) {
    forall i :: 0 <= i < |s| - 1 ==> !(IsBlank(s[i]) && IsBlank(s[i + 1]))
  }

  predicate NoNewlineTriples(s: string) {
    forall i :: 0 <= i < |s| - 2 ==> !(s[i] == '\n' && s[i + 1] == '\n' && s[i + 2] == '\n')
  }

  predicate SingleBlanks(s: string) {
    NoReturns(s) && NoTabs(s) && NoBlankPairs(s)
  }

  predicate Canonical(s: string) {
    SingleBlanks(s) && NoNewlineTriples(s) && Trimmed(s)
  }

  // ----- every stage reaches its part of the form and keeps the parts already reached -----

  lemma {:induction false} CrToLfForm(s: string)
    ensures |CrToLf(s)| == |s|
    ensures forall i :: 0 <= i < |s| ==> CrToLf(s)[i] == if s[i] == '\r' then '\n' else s[i]
    ensures NoReturns(CrToLf(s))
  {
    if |s| > 0 {
      CrToLfForm(s[1..]);
      var t := CrToLf(s[1..]);
      assert forall i :: 0 < i < |CrToLf(s)| ==> CrToLf(s)[i] == t[i - 1];
    }
  }

  lemma {:induction false} CollapseBlanksForm(s: string)
    requires NoReturns(s)
    ensures SingleBlanks(CollapseBlanks(s))
    ensures |s| > 0 ==> |CollapseBlanks(s)| > 0 && (IsBlank(CollapseBlanks(s)[0]) <==> IsBlank(s[0]))
  {
    if |s| > 0 {
      var r := s[1..];
      assert NoReturns(r);
      CollapseBlanksForm(r);
      if !(IsBlank(s[0]) && |s| > 1 && IsBlank(s[1])) {
        var u, t := CollapseBlanks(s), CollapseBlanks(r);
        assert forall i :: 0 < i < |u| ==> u[i] == t[i - 1];
        forall i | 0 <= i < |u| - 1 ensures !(IsBlank(u[i]) && IsBlank(u[i + 1])) {
          if i > 0 {
            assert !(IsBlank(t[i - 1]) && IsBlank(t[i - 1 + 1]));
          }
        }
      }
    }
  }

  lemma {:induction false} CollapseNewlinesForm(s: string)
    requires SingleBlanks(s)
    ensures SingleBlanks(CollapseNewlines(s)) && NoNewlineTriples(CollapseNewlines(s))
    ensures CollapseNewlinesStart(s)
  {
    if |s| > 0 {
      var r := s[1..];
      assert SingleBlanks(r) by {
        assert forall i :: 0 <= i < |r| ==> r[i] == s[i + 1];
        forall i | 0 <= i < |r| - 1 ensures !(IsBlank(r[i]) && IsBlank(r[i + 1])) {
          assert !(IsBlank(s[i + 1]) && IsBlank(s[i + 1 + 1]));
        }
      }
      CollapseNewlinesForm(r);
      if !(|s| > 2 && s[0] == '\n' && s[1] == '\n' && s[2] == '\n') {
        var u, t := CollapseNewlines(s), CollapseNewlines(r);
        assert forall i :: 0 < i < |u| ==> u[i] == t[i - 1];
        forall i | 0 <= i < |u| - 1 ensures !(IsBlank(u[i]) && IsBlank(u[i + 1])) {
          if i > 0 {
            assert !(IsBlank(t[i - 1]) && IsBlank(t[i - 1 + 1]));
          } else {
            assert !(IsBlank(s[0]) && IsBlank(s[0 + 1]));
          }
        }
        forall i | 0 <= i < |u| - 2 ensures !(u[i] == '\n' && u[i + 1] == '\n' && u[i + 2] == '\n') {
          if i > 0 {
            assert !(t[i - 1] == '\n' && t[i - 1 + 1] == '\n' && t[i - 1 + 2] == '\n');
          }
        }
      }
    }
  }

  /** The first characters survive, and a result starts with two newlines only if the text did. */
  predicate CollapseNewlinesStart(s: string) {
    var u := CollapseNewlines(s);
    && |u| <= |s|
    && (|s| > 0 ==> |u| > 0 && u[0] == s[0])
    && (|u| > 1 ==> (u[0] == '\n' && u[1] == '\n' <==> s[0] == '\n' && s[1] == '\n'))
    && (|u| > 1 && s[0] != '\n' ==> u[1] == s[1])
    && (|u| > 1 && s[1] != '\n' ==> u[1] == s[1])
  }

  /** A slice of a text in which blanks are single and newlines at most double is such a text again. */
  lemma SliceKeepsForm(s: string, a: nat, b: nat)
    requires SingleBlanks(s) && NoNewlineTriples(s) && a <= b <= |s|
    ensures SingleBlanks(s[a..b]) && NoNewlineTriples(s[a..b])
  {
    var u := s[a..b];
    assert forall i :: 0 <= i < |u| ==> u[i] == s[a + i];
    forall i | 0 <= i < |u| - 1 ensures !(IsBlank(u[i]) && IsBlank(u[i + 1])) {
      assert !(IsBlank(s[a + i]) && IsBlank(s[a + i + 1]));
    }
    forall i | 0 <= i < |u| - 2 ensures !(u[i] == '\n' && u[i + 1] == '\n' && u[i + 2] == '\n') {
      assert !(s[a + i] == '\n' && s[a + i + 1] == '\n' && s[a + i + 2] == '\n');
    }
  }

  lemma NormalizeIsCanonical(text: string)
    ensures Canonical(NormalizeText(text))
  {
    var lf := CrToLf(CrLfToLf(text));
    CrToLfForm(CrLfToLf(text));
    CollapseBlanksForm(lf);
    CollapseNewlinesForm(CollapseBlanks(lf));
    var u := CollapseNewlines(CollapseBlanks(lf));
    var a, b := StripSlice(u);
    SliceKeepsForm(u, a, b);
  }

  // ----- every stage is the identity on a text that already has its form -----

  lemma {:induction false} CollapsesAreIdentities(s: string)
    requires SingleBlanks(s) && NoNewlineTriples(s)
    ensures CrLfToLf(s) == s && CrToLf(s) == s && CollapseBlanks(s) == s && CollapseNewlines(s) == s
  {
    if |s| > 0 {
      SliceKeepsForm(s, 1, |s|);
      CollapsesAreIdentities(s[1..]);
      assert [s[0]] + s[1..] == s;
      assert |s| > 1 ==> !(IsBlank(s[0]) && IsBlank(s[0 + 1]));
      assert |s| > 2 ==> !(s[0] == '\n' && s[0 + 1] == '\n' && s[0 + 2] == '\n');
    }
  }

  /** The canonical texts are exactly the fixed points of the normaliser. */
  lemma CanonicalIffFixed(s: string)
    ensures Canonical(s) <==> NormalizeText(s) == s
  {
    NormalizeIsCanonical(s);
    if Canonical(s) {
      CollapsesAreIdentities(s);
      StripEnds(s);
    }
  }

  lemma NormalizeIdempotent(text: string)
    ensures NormalizeText(NormalizeText(text)) == NormalizeText(text)
  {
    NormalizeIsCanonical(text);
    CanonicalIffFixed(NormalizeText(text));
  }

  // ----- only whitespace changes: the words and their order stay -----

  lemma {:induction false} WordsOfCrLf(s: string)
    ensures Squash(CrLfToLf(s)) == Squash(s)
  {
    if |s| > 1 && s[0] == '\r' && s[1] == '\n' {
      WordsOfCrLf(s[2..]);
      SquashCons('\n', '\n', CrLfToLf(s[2..]), s[2..]);
      SquashTwo('\r', '\n', s[2..]);
      assert s == ['\r', '\n'] + s[2..];
    } else if |s| > 0 {
      WordsOfCrLf(s[1..]);
      SquashCons(s[0], s[0], CrLfToLf(s[1..]), s[1..]);
      assert s == [s[0]] + s[1..];
    }
  }

  lemma {:induction false} WordsOfCr(s: string)
    ensures Squash(CrToLf(s)) == Squash(s)
  {
    if |s| > 0 {
      WordsOfCr(s[1..]);
      SquashCons(if s[0] == '\r' then '\n' else s[0], s[0], CrToLf(s[1..]), s[1..]);
      assert s == [s[0]] + s[1..];
    }
  }

  lemma {:induction false} WordsOfBlanks(s: string)
    ensures Squash(CollapseBlanks(s)) == Squash(s)
  {
    if |s| > 0 {
      WordsOfBlanks(s[1..]);
      assert s == [s[0]] + s[1..];
      if !(IsBlank(s[0]) && |s| > 1 && IsBlank(s[1])) {
        SquashCons(CollapseBlanks(s)[0], s[0], CollapseBlanks(s[1..]), s[1..]);
      }
    }
  }

  lemma {:induction false} WordsOfNewlines(s: string)
    ensures Squash(CollapseNewlines(s)) == Squash(s)
  {
    if |s| > 0 {
      WordsOfNewlines(s[1..]);
      assert s == [s[0]] + s[1..];
      if !(|s| > 2 && s[0] == '\n' && s[1] == '\n' && s[2] == '\n') {
        SquashCons(s[0], s[0], CollapseNewlines(s[1..]), s[1..]);
      }
    }
  }

  lemma NormalizeKeepsWords(text: string)
    ensures Words(NormalizeText(text)) == Words(text)
  {
    var a := CrLfToLf(text);
    var b := CrToLf(a);
    var c := CollapseBlanks(b);
    WordsOfCrLf(text);
    WordsOfCr(a);
    WordsOfBlanks(b);
    WordsOfNewlines(c);
    WordsOfStrip(CollapseNewlines(c));
  }

  // ----- what each substitution does to one match, whatever stands around it -----

  function Repeat(c: char, n: nat): string {
    if n == 0 then [] else [c] + Repeat(c, n - 1)
  }

  predicate NoPairs(s: string) {
    forall i :: 0 <= i < |s| - 1 ==> !(s[i] == '\r' && s[i + 1] == '\n')
  }

  /** Text without a pair is left alone. */
  lemma {:induction false} CrLfWithoutPairs(s: string)
    requires NoPairs(s)
    ensures CrLfToLf(s) == s
  {
    if |s| > 0 {
      assert |s| > 1 ==> !(s[0] == '\r' && s[0 + 1] == '\n');
      forall i | 0 <= i < |s[1..]| - 1 ensures !(s[1..][i] == '\r' && s[1..][i + 1] == '\n') {
        assert !(s[i + 1] == '\r' && s[i + 1 + 1] == '\n');
      }
      CrLfWithoutPairs(s[1..]);
    }
  }

  /** A pair becomes one newline, wherever it stands; what is on either side is rewritten on its own. */
  lemma {:induction false} CrLfPairLaw(x: string, y: string)
    ensures CrLfToLf(x + "\r\n" + y) == CrLfToLf(x) + "\n" + CrLfToLf(y)
  {
    var s := x + "\r\n" + y;
    if |x| == 0 {
      assert s[2..] == y;
    } else if |x| > 1 && x[0] == '\r' && x[1] == '\n' {
      assert s[2..] == x[2..] + "\r\n" + y;
      CrLfPairLaw(x[2..], y);
    } else {
      assert s[1..] == x[1..] + "\r\n" + y;
      CrLfPairLaw(x[1..], y);
    }
  }

  /** A maximal run of blanks and tabs becomes one blank; the rest is rewritten on its own. */
  lemma {:induction false} BlankRunLaw(x: string, run: string, y: string)
    requires |run| > 0 && forall i :: 0 <= i < |run| ==> IsBlank(run[i])
    requires |x| > 0 ==> !IsBlank(x[|x| - 1])
    requires |y| > 0 ==> !IsBlank(y[0])
    ensures CollapseBlanks(x + run + y) == CollapseBlanks(x) + " " + CollapseBlanks(y)
    decreases |x| + |run|
  {
    var s := x + run + y;
    if |x| > 0 {
      assert s[1..] == x[1..] + run + y;
      BlankRunLaw(x[1..], run, y);
    } else if |run| > 1 {
      assert s[1..] == x + run[1..] + y;
      assert s[1] == run[1];
      BlankRunLaw(x, run[1..], y);
    } else {
      assert s[1..] == y;
    }
  }

  lemma {:induction false} RepeatAt(c: char, n: nat)
    ensures |Repeat(c, n)| == n && forall i :: 0 <= i < n ==> Repeat(c, n)[i] == c
  {
    if n > 0 {
      RepeatAt(c, n - 1);
    }
  }

  lemma {:induction false} NewlineRunAtFront(n: nat, y: string)
    requires |y| > 0 ==> y[0] != '\n'
    ensures CollapseNewlines(Repeat('\n', n) + y) == Repeat('\n', if n < 2 then n else 2) + CollapseNewlines(y)
  {
    RepeatAt('\n', n);
    var s := Repeat('\n', n) + y;
    if n == 0 {
      assert s == y;
    } else {
      assert s[1..] == Repeat('\n', n - 1) + y;
      NewlineRunAtFront(n - 1, y);
      assert Repeat('\n', 2) == ['\n'] + Repeat('\n', 1);
    }
  }

  /** A maximal run of newlines is cut down to at most two; the rest is rewritten on its own. */
  lemma {:induction false} NewlineRunLaw(x: string, n: nat, y: string)
    requires n > 0
    requires |x| > 0 ==> x[|x| - 1] != '\n'
    requires |y| > 0 ==> y[0] != '\n'
    ensures CollapseNewlines(x + Repeat('\n', n) + y) ==
            CollapseNewlines(x) + Repeat('\n', if n < 2 then n else 2) + CollapseNewlines(y)
    decreases |x|
  {
    var run := Repeat('\n', n);
    var s := x + run + y;
    if |x| == 0 {
      NewlineRunAtFront(n, y);
      assert s == run + y;
      assert CollapseNewlines(x) == [];
    } else {
      assert s[1..] == x[1..] + run + y;
      NewlineRunLaw(x[1..], n, y);
      assert forall i :: 0 <= i < |x| ==> s[i] == x[i];
    }
  }
}
