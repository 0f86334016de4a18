/** Python's notion of whitespace, str.strip, and the substitution of `\s+` by one blank. */
module Text {

  /** The characters for which str.isspace() holds; str.strip() and the regex class \s use the same set. */
  predicate IsSpace(c: char) {
    || c == ' '
    || '\t' <= c <= '\r'
    || '\U{1C}' <= c <= '\U{1F}'
    || c == '\U{85}' || c == '\U{A0}' || c == '\U{1680}'
    || '\U{2000}' <= c <= '\U{200A}'
    || c == '\U{2028}' || c == '\U{2029}' || c == '\U{202F}' || c == '\U{205F}' || c == '\U{3000}'
  }

  function LStrip(s: string): string {
    if |s| > 0 && IsSpace(s[0]) then LStrip(s[1..]) else s
  }

  function RStrip(s: string): string {
    if |s| > 0 && IsSpace(s[|s| - 1]) then RStrip(s[..|s| - 1]) else s
  }

  function Strip(s: string): string {
    RStrip(LStrip(s))
  }

  predicate Trimmed(s: string) {
    |s| > 0 ==> !IsSpace(s[0]) && !IsSpace(s[|s| - 1])
  }

  predicate AllSpace(s: string) {
    forall i :: 0 <= i < |s| ==> IsSpace(s[i])
  }

  /** re.sub(r"\s+", " ", s): each maximal run of whitespace becomes one blank. */
  function Squash(s: string): string {
    if |s| == 0 then []
    else if !IsSpace(s[0]) then [s[0]] + Squash(s[1..])
    else if |s| > 1 && IsSpace(s[1]) then Squash(s[1..])
    else [' '] + Squash(s[1..])
  }

  /** What is left of a text when only its words and their order count. */
  function Words(s: string): string {
    Strip(Squash(s))
  }

  lemma {:induction false} LStripSlice(s: string) returns (a: nat)
    ensures a <= |s| && LStrip(s) == s[a..] && AllSpace(s[..a])
    ensures a < |s| ==> !IsSpace(s[a])
  {
    if |s| > 0 && IsSpace(s[0]) {
      var b := LStripSlice(s[1..]);
      a := b + 1;
      assert s[1..][b..] == s[a..];
      forall i | 0 <= i < a ensures IsSpace(s[..a][i]) {
        if i > 0 {
          assert s[1..][..b][i - 1] == s[i];
        }
      }
    } else {
      a := 0;
    }
  }

  lemma {:induction false} RStripSlice(s: string) returns (b: nat)
    ensures b <= |s| && RStrip(s) == s[..b] && AllSpace(s[b..])
    ensures b > 0 ==> !IsSpace(s[b - 1])
  {
    if |s| > 0 && IsSpace(s[|s| - 1]) {
      var r := s[..|s| - 1];
      b := RStripSlice(r);
      assert r[..b] == s[..b];
      forall i | 0 <= i < |s| - b ensures IsSpace(s[b..][i]) {
        if i < |r| - b {
          assert r[b..][i] == s[b + i];
        }
      }
    } else {
      b := |s|;
    }
  }

  /** Strip returns the slice between the first and the last character that is not whitespace. */
  lemma StripSlice(s: string) returns (a: nat, b: nat)
    ensures a <= b <= |s| && Strip(s) == s[a..b] && Trimmed(Strip(s))
    ensures forall i :: 0 <= i < |s| && !IsSpace(s[i]) ==> a <= i < b
  {
    a := LStripSlice(s);
    var t := LStrip(s);
    var n := RStripSlice(t);
    b := a + n;
    assert t[..n] == s[a..b];
    forall i | 0 <= i < a ensures IsSpace(s[i]) {
      assert s[..a][i] == s[i];
    }
    forall i | b <= i < |s| ensures IsSpace(s[i]) {
      assert t[n..][i - b] == s[i];
    }
    if n > 0 {
      assert t[0] == s[a] && t[..n][0] == t[0];
    }
  }

  /** Stripping leaves nothing exactly of a text that is all whitespace, and changes nothing exactly of a trimmed one.
      */
  lemma StripEnds(s: string)
    ensures Strip(s) == [] <==> AllSpace(s)
    ensures Strip(s) == s <==> Trimmed(s)
  {
    var a, b := StripSlice(s);
    if a < b {
      assert Strip(s)[0] == s[a];
    }
    if Trimmed(s) && |s| > 0 {
      assert a == 0 && b == |s|;
    }
  }

  lemma {:induction false} SquashHead(s: string)
    ensures |s| == 0 <==> |Squash(s)| == 0
    ensures |s| > 0 ==> (Squash(s)[0] == ' ' <==> IsSpace(s[0])) && (!IsSpace(s[0]) ==> Squash(s)[0] == s[0])
  {
    if |s| > 1 {
      SquashHead(s[1..]);
    }
  }

  /** Squash looks at a first character only through "is it whitespace, and if not, which one". */
  lemma SquashCons(c: char, d: char, s: string, t: string)
    requires Squash(s) == Squash(t)
    requires c == d || (IsSpace(c) && IsSpace(d))
    ensures Squash([c] + s) == Squash([d] + t)
  {
    SquashHead(s);
    SquashHead(t);
    assert ([c] + s)[1..] == s && ([d] + t)[1..] == t;
    if |s| > 0 {
      assert ([c] + s)[1] == s[0] && ([d] + t)[1] == t[0];
    }
  }

  /** Of two whitespace characters at the front, the first makes no difference. */
  lemma SquashTwo(c: char, d: char, s: string)
    requires IsSpace(c) && IsSpace(d)
    ensures Squash([c, d] + s) == Squash([d] + s)
  {
    assert ([c, d] + s)[1..] == [d] + s;
  }

  lemma {:induction false} SquashSnoc(s: string, c: char)
    ensures Squash(s + [c]) ==
            if !IsSpace(c) then Squash(s) + [c]
            else if |s| > 0 && IsSpace(s[|s| - 1]) then Squash(s)
            else Squash(s) + [' ']
  {
    if |s| == 0 {
      assert s + [c] == [c];
      assert [c][1..] == [];
    } else {
      var u := s + [c];
      assert u[1..] == s[1..] + [c];
      SquashSnoc(s[1..], c);
      if |s| == 1 {
        assert s[1..] == [] && Squash(s[1..]) == [];
      }
    }
  }

  lemma {:induction false} SquashLStrip(s: string)
    ensures Squash(LStrip(s)) == LStrip(Squash(s))
  {
    SquashHead(s);
    if |s| > 0 && IsSpace(s[0]) {
      SquashLStrip(s[1..]);
      SquashHead(s[1..]);
      if |s| > 1 && IsSpace(s[1]) {
      } else {
        assert ([' '] + Squash(s[1..]))[1..] == Squash(s[1..]);
      }
    } else if |s| > 0 {
      assert !IsSpace(Squash(s)[0]);
    }
  }

  lemma {:induction false} SquashLast(s: string)
    requires |s| > 0
    ensures |Squash(s)| > 0
    ensures IsSpace(s[|s| - 1]) <==> IsSpace(Squash(s)[|Squash(s)| - 1])
  {
    SquashHead(s);
    if |s| > 1 {
      SquashLast(s[1..]);
    }
  }

  lemma BlankIsSpace()
    ensures IsSpace(' ')
  {
  }

  lemma {:induction false} SquashRStrip(s: string)
    ensures Squash(RStrip(s)) == RStrip(Squash(s))
  {
    hide Squash, IsSpace;
    SquashHead(s);
    if |s| > 0 {
      var r := s[..|s| - 1];
      assert s == r + [s[|s| - 1]];
      SquashSnoc(r, s[|s| - 1]);
      SquashLast(s);
      if IsSpace(s[|s| - 1]) {
        SquashRStrip(r);
        if |r| > 0 && IsSpace(r[|r| - 1]) {
        } else {
          BlankIsSpace();
          assert (Squash(r) + [' '])[..|Squash(r)|] == Squash(r);
        }
      }
    }
  }

  /** Stripping a text keeps its words. */
  lemma WordsOfStrip(s: string)
    ensures Words(Strip(s)) == Words(s)
  {
    SquashRStrip(LStrip(s));
    SquashLStrip(s);
    var q := Squash(s);
    assert Squash(Strip(s)) == Strip(q);
    var a, b := StripSlice(q);
    StripEnds(Strip(q));
  }
}
