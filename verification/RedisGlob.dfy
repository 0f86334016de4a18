/** Redis's glob patterns, and which of them can match a chunk's part of a key. */
module RedisGlob {
  import opened Basics
  import opened Decimal

  // ----- bytes -----

  /** The server sees bytes; a byte is written here as the character of its value. */
  function Byte(n: int): (b: char)
    requires 0 <= n < 256
    ensures b as int == n
  {
    n as char
  }

  /** The UTF-8 form of a character (section 3 of RFC 3629). */
  function Utf8Char(c: char): (bytes: string)
    ensures |bytes| > 0
    ensures c as int < 0x80 ==> bytes == [c]
    ensures c as int >= 0x80 ==> forall i :: 0 <= i < |bytes| ==> 0x80 <= bytes[i] as int < 0x100
  {
    var n := c as int;
    if n < 0x80 then [c]
    else if n < 0x800 then [Byte(0xC0 + n / 0x40), Byte(0x80 + n % 0x40)]
    else if n < 0x10000 then [Byte(0xE0 + n / 0x1000), Byte(0x80 + n / 0x40 % 0x40), Byte(0x80 + n % 0x40)]
    else
      [Byte(0xF0 + n / 0x40000), Byte(0x80 + n / 0x1000 % 0x40), Byte(0x80 + n / 0x40 % 0x40), Byte(0x80 + n % 0x40)]
  }

  function Utf8(s: string): string {
    if |s| == 0 then [] else Utf8Char(s[0]) + Utf8(s[1..])
  }

  predicate Ascii(s: string) {
    forall i :: 0 <= i < |s| ==> s[i] as int < 0x80
  }

  lemma {:induction false} Utf8Join(s: string, t: string)
    ensures Utf8(s + t) == Utf8(s) + Utf8(t)
  {
    if |s| == 0 {
      assert s + t == t;
    } else {
      assert (s + t)[1..] == s[1..] + t;
      Utf8Join(s[1..], t);
    }
  }

  /** Text within ASCII is its own UTF-8 form, and no other text has a form within ASCII. */
  lemma {:induction false} Utf8Ascii(s: string)
    ensures Ascii(s) <==> Ascii(Utf8(s))
    ensures Ascii(s) ==> Utf8(s) == s
  {
    if |s| > 0 {
      hide Utf8Char;
      Utf8Ascii(s[1..]);
      var head, tail := Utf8Char(s[0]), Utf8(s[1..]);
      assert Utf8(s)[0] == head[0];
      assert forall i :: 0 <= i < |tail| ==> Utf8(s)[|head| + i] == tail[i];
      assert forall i :: 1 <= i < |s| ==> s[i] == s[1..][i - 1];
      assert s == [s[0]] + s[1..];
      if Ascii(Utf8(s)) {
        assert Ascii(tail);
      }
    }
  }

  // ----- patterns -----

  datatype Token = Star | Any | Lit(c: char) | OneOf(negated: bool, ranges: seq<(int, int)>)

  /** How the server orders bytes in a bracket: as C's char, which is signed on some machines and unsigned on others. */
  function Order(b: char, signed: bool): int {
    if signed && b as int >= 0x80 then b as int - 0x100 else b as int
  }

  predicate InRanges(n: int, ranges: seq<(int, int)>) {
    exists i :: 0 <= i < |ranges| && ranges[i].0 <= n <= ranges[i].1
  }

  /** A token other than a star stands for one byte; the keys are within ASCII, where both orders agree. */
  predicate Accepts(t: Token, c: char) {
    match t
    case Star => false
    case Any => true
    case Lit(x) => c == x
    case OneOf(negated, ranges) => negated != InRanges(c as int, ranges)
  }

  function Range(a: char, b: char, signed: bool): (int, int) {
    (Min(Order(a, signed), Order(b, signed)), Max(Order(a, signed), Order(b, signed)))
  }

  /** The ranges of a bracket and what follows it. A backslash takes the next byte as it is, bounds in the wrong order
      are swapped, and a bracket that is never closed ends with the pattern. */
  function ReadRanges(p: string, signed: bool): (r: (seq<(int, int)>, string))
    ensures |r.1| <= |p|
  {
    if |p| == 0 then ([], "")
    else if p[0] == '\\' && |p| >= 2 then
      var (more, rest) := ReadRanges(p[2..], signed); ([Range(p[1], p[1], signed)] + more, rest)
    else if p[0] == ']' then ([], p[1..])
    else if |p| >= 3 && p[1] == '-' then
      var (more, rest) := ReadRanges(p[3..], signed); ([Range(p[0], p[2], signed)] + more, rest)
    else
      var (more, rest) := ReadRanges(p[1..], signed); ([Range(p[0], p[0], signed)] + more, rest)
  }

  function Tokens(p: string, signed: bool): seq<Token>
    decreases |p|
  {
    if |p| == 0 then []
    else if p[0] == '*' then [Star] + Tokens(p[1..], signed)
    else if p[0] == '?' then [Any] + Tokens(p[1..], signed)
    else if p[0] == '\\' && |p| >= 2 then [Lit(p[1])] + Tokens(p[2..], signed)
    else if p[0] == '[' then
      var negated := |p| >= 2 && p[1] == '^';
      var (ranges, rest) := ReadRanges(if negated then p[2..] else p[1..], signed);
      [OneOf(negated, ranges)] + Tokens(rest, signed)
    else [Lit(p[0])] + Tokens(p[1..], signed)
  }

  predicate Glob(ts: seq<Token>, s: string)
    decreases |ts| + |s|
  {
    if |ts| == 0 then |s| == 0
    else if ts[0].Star? then Glob(ts[1..], s) || (|s| > 0 && Glob(ts, s[1..]))
    else |s| > 0 && Accepts(ts[0], s[0]) && Glob(ts[1..], s[1..])
  }

  predicate Special(c: char) {
    c == '*' || c == '?' || c == '[' || c == '\\'
  }

  predicate Plain(p: string) {
    forall i :: 0 <= i < |p| ==> !Special(p[i])
  }

  /** A pattern that starts with plain text matches what starts with that text and goes on as the rest asks. */
  lemma {:induction false} PlainPrefix(p: string, rest: string, s: string, signed: bool)
    requires Plain(p)
    ensures Glob(Tokens(p + rest, signed), s) <==> p <= s && Glob(Tokens(rest, signed), s[|p|..])
  {
    if |p| == 0 {
      assert p + rest == rest && s[0..] == s;
    } else {
      assert (p + rest)[1..] == p[1..] + rest;
      assert Tokens(p + rest, signed) == [Lit(p[0])] + Tokens(p[1..] + rest, signed);
      if |s| > 0 {
        PlainPrefix(p[1..], rest, s[1..], signed);
        assert p <= s <==> p[0] == s[0] && p[1..] <= s[1..];
        assert p <= s ==> s[|p|..] == s[1..][|p[1..]|..];
      }
    }
  }

  lemma {:induction false} StarAbsorbs(ts: seq<Token>, v: string, w: string)
    requires Glob(ts, w)
    ensures Glob([Star] + ts, v + w)
  {
    assert ([Star] + ts)[1..] == ts;
    if |v| == 0 {
      assert v + w == w;
    } else {
      StarAbsorbs(ts, v[1..], w);
      assert (v + w)[1..] == v[1..] + w;
    }
  }

  lemma StarMatchesAll(s: string, signed: bool)
    ensures Glob(Tokens("*", signed), s)
  {
    assert "*"[1..] == "";
    assert Tokens("*", signed) == [Star] + [];
    StarAbsorbs([], s, "");
    assert s + "" == s;
  }

  // ----- texts of the form id : number -----

  const ID_LENGTH := 24
  const ALPHABET := "0123456789abcdef:"

  predicate IsHex(c: char) {
    '0' <= c <= '9' || 'a' <= c <= 'f'
  }

  /** How much of such a text has been read: the id but for some digits, the colon, a zero, or another number's start.
      */
  datatype Phase = Id(left: nat) | Colon | Zero | Number

  function Next(q: Phase, c: char): Option<Phase> {
    match q
    case Id(left) =>
      if left > 0 && IsHex(c) then Some(Id(left - 1)) else if left == 0 && c == ':' then Some(Colon) else None
    case Colon => if c == '0' then Some(Zero) else if IsDigit(c) then Some(Number) else None
    case Zero => None
    case Number => if IsDigit(c) then Some(Number) else None
  }

  predicate Completes(q: Phase, w: string)
    decreases |w|
  {
    if |w| == 0 then q.Zero? || q.Number?
    else Next(q, w[0]).Some? && Completes(Next(q, w[0]).value, w[1..])
  }

  lemma {:induction false} NumberCompletes(w: string)
    ensures Completes(Number, w) <==> forall i :: 0 <= i < |w| ==> IsDigit(w[i])
  {
    if |w| > 0 {
      NumberCompletes(w[1..]);
      assert forall i :: 1 <= i < |w| ==> w[i] == w[1..][i - 1];
    }
  }

  lemma ColonCompletes(w: string)
    ensures Completes(Colon, w) <==> IsNumeral(w)
  {
    if |w| > 0 {
      NumberCompletes(w[1..]);
      assert forall i :: 1 <= i < |w| ==> w[i] == w[1..][i - 1];
      if w[0] == '0' && |w| > 1 {
        assert Next(Zero, w[1]) == None;
      }
    }
  }

  /** The texts that complete an id are the id's digits, a colon and a number. */
  lemma {:induction false} IdCompletes(n: nat, w: string)
    ensures Completes(Id(n), w) <==>
            n < |w| && (forall i :: 0 <= i < n ==> IsHex(w[i])) && w[n] == ':' && IsNumeral(w[n + 1..])
  {
    if |w| > 0 {
      if n == 0 {
        ColonCompletes(w[1..]);
      } else {
        IdCompletes(n - 1, w[1..]);
        assert forall i :: 1 <= i < |w| ==> w[i] == w[1..][i - 1];
        assert n < |w| ==> w[1..][n..] == w[n + 1..];
      }
    }
  }

  // ----- which patterns match some such text -----

  /** The phases that some text leads to. */
  function Reach(q: Phase): set<Phase> {
    match q
    case Id(left) => (set n: nat | n <= left :: Id(n)) + {Colon, Zero, Number}
    case Colon => {Colon, Zero, Number}
    case Zero => {Zero}
    case Number => {Number}
  }

  /** The pattern matches some text that completes phase q: both are followed side by side, over the few characters that
      such texts are made of. */
  predicate Hits(ts: seq<Token>, q: Phase) {
    if |ts| == 0 then q.Zero? || q.Number?
    else if ts[0].Star? then exists q' :: q' in Reach(q) && Hits(ts[1..], q')
    else exists c :: c in ALPHABET && Accepts(ts[0], c) && Next(q, c).Some? && Hits(ts[1..], Next(q, c).value)
  }

  lemma NextIsInAlphabet(q: Phase, c: char)
    requires Next(q, c).Some?
    ensures c in ALPHABET
  {
    var i := if IsDigit(c) then c as int - '0' as int else if c == ':' then 16 else 10 + (c as int - 'a' as int);
    assert ALPHABET[i] == c;
  }

  lemma ReachNext(q: Phase, c: char, q': Phase)
    requires Next(q, c).Some? && q' in Reach(Next(q, c).value)
    ensures q' in Reach(q)
  {
  }

  lemma ReachSelf(q: Phase)
    ensures q in Reach(q)
  {
  }

  lemma {:induction false} MatchHits(ts: seq<Token>, q: Phase, w: string)
    requires Glob(ts, w) && Completes(q, w)
    ensures Hits(ts, q)
    decreases |ts| + |w|
  {
    if |ts| > 0 {
      if !ts[0].Star? {
        MatchHits(ts[1..], Next(q, w[0]).value, w[1..]);
        NextIsInAlphabet(q, w[0]);
      } else if Glob(ts[1..], w) {
        MatchHits(ts[1..], q, w);
        ReachSelf(q);
      } else {
        MatchHits(ts, Next(q, w[0]).value, w[1..]);
        var q' :| q' in Reach(Next(q, w[0]).value) && Hits(ts[1..], q');
        ReachNext(q, w[0], q');
      }
    }
  }

  /** A text that leads from q to q', in front of one that completes q'. */
  lemma {:induction false} Lead(q: Phase, q': Phase, w: string) returns (v: string)
    requires q' in Reach(q) && Completes(q', w)
    ensures Completes(q, v + w)
    decreases if q.Id? then q.left + 2 else if q.Colon? then 1 else 0
  {
    if q == q' {
      v := "";
      assert v + w == w;
    } else {
      var c := if q.Id? && q.left == 0 then ':' else if q' == Number then '1' else '0';
      var rest := Lead(Next(q, c).value, q', w);
      v := [c] + rest;
      assert (v + w)[1..] == rest + w;
    }
  }

  lemma {:induction false} HitMatches(ts: seq<Token>, q: Phase) returns (w: string)
    requires Hits(ts, q)
    ensures Glob(ts, w) && Completes(q, w)
  {
    if |ts| == 0 {
      w := "";
    } else if ts[0].Star? {
      var q' :| q' in Reach(q) && Hits(ts[1..], q');
      var w' := HitMatches(ts[1..], q');
      var v := Lead(q, q', w');
      StarAbsorbs(ts[1..], v, w');
      assert ts == [Star] + ts[1..];
      w := v + w';
    } else {
      var c :| c in ALPHABET && Accepts(ts[0], c) && Next(q, c).Some? && Hits(ts[1..], Next(q, c).value);
      var w' := HitMatches(ts[1..], Next(q, c).value);
      w := [c] + w';
      assert w[1..] == w';
    }
  }
}
