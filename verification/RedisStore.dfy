/** The Redis backend: one flat key space that stands for a nested map from users to documents to chunks. */
module RedisStore {
  import opened Basics
  import opened Decimal
  import opened RedisGlob
  import Keys

  datatype Chunk = Chunk(text: string, page: Option<int>)

  datatype Doc = Doc(filename: string, size: int, createdAt: int, chunks: seq<Chunk>)

  /** What a key holds: a document's hash, a chunk's hash, or the sorted set of a user's documents. */
  datatype Val =
    | DocHash(filename: string, size: int, chunkCount: nat, createdAt: int)
    | ChunkHash(chunk: Chunk)
    | DocIndex(scores: map<string, int>)

  // ----- keys -----

  const DOC_PREFIX := "modstore:kb:doc:"
  const CHUNK_PREFIX := "modstore:kb:chunk:"
  const USER_DOCS_PREFIX := "modstore:kb:user:"

  /** The places of the nested map that have a key of their own. */
  datatype Slot = DocSlot(user: int, doc: string) | ChunkSlot(user: int, doc: string, idx: nat) | IndexSlot(user: int)

  /** Document ids are the leading hex digits of a hash. */
  predicate IsDocId(doc: string) {
    |doc| == ID_LENGTH && forall i :: 0 <= i < |doc| ==> IsHex(doc[i])
  }

  predicate Proper(s: Slot) {
    s.IndexSlot? || IsDocId(s.doc)
  }

  function DocKey(user: int, doc: string): string {
    DOC_PREFIX + (PrintInt(user) + (":" + doc))
  }

  function ChunkKey(user: int, doc: string, idx: nat): string {
    CHUNK_PREFIX + (PrintInt(user) + (":" + (doc + (":" + Digits(idx)))))
  }

  function UserDocsKey(user: int): string {
    USER_DOCS_PREFIX + (PrintInt(user) + ":docs")
  }

  function Encode(s: Slot): string {
    match s
    case DocSlot(user, doc) => DocKey(user, doc)
    case ChunkSlot(user, doc, idx) => ChunkKey(user, doc, idx)
    case IndexSlot(user) => UserDocsKey(user)
  }

  lemma NoColonInUser(user: int)
    ensures ':' !in PrintInt(user)
  {
    PrintIntShape(user);
  }

  lemma TailsEqual(p: string, x: string, y: string)
    requires p + x == p + y
    ensures x == y
  {
    assert (p + x)[|p|..] == x && (p + y)[|p|..] == y;
  }

  /** The thirteenth character tells the three kinds of keys apart. */
  lemma KindOfKey(s: Slot)
    ensures |Encode(s)| > 12
    ensures Encode(s)[12] == if s.DocSlot? then 'd' else if s.ChunkSlot? then 'c' else 'u'
  {
    assert DOC_PREFIX[12] == 'd' && CHUNK_PREFIX[12] == 'c' && USER_DOCS_PREFIX[12] == 'u';
  }

  lemma ChunkKeysInjective(u: int, d: string, i: nat, u': int, d': string, i': nat)
    requires IsDocId(d) && IsDocId(d') && ChunkKey(u, d, i) == ChunkKey(u', d', i')
    ensures u == u' && d == d' && i == i'
  {
    TailsEqual(CHUNK_PREFIX, PrintInt(u) + (":" + (d + (":" + Digits(i)))),
               PrintInt(u') + (":" + (d' + (":" + Digits(i')))));
    NoColonInUser(u);
    NoColonInUser(u');
    Keys.SplitAtColon(PrintInt(u), PrintInt(u'), d + (":" + Digits(i)), d' + (":" + Digits(i')));
    PrintIntInjective(u, u');
    Keys.SplitAtColon(d, d', Digits(i), Digits(i'));
    DigitsInjective(i, i');
  }

  lemma DocKeysInjective(u: int, d: string, u': int, d': string)
    requires DocKey(u, d) == DocKey(u', d')
    ensures u == u' && d == d'
  {
    TailsEqual(DOC_PREFIX, PrintInt(u) + (":" + d), PrintInt(u') + (":" + d'));
    NoColonInUser(u);
    NoColonInUser(u');
    Keys.SplitAtColon(PrintInt(u), PrintInt(u'), d, d');
    PrintIntInjective(u, u');
  }

  lemma IndexKeysInjective(u: int, u': int)
    requires UserDocsKey(u) == UserDocsKey(u')
    ensures u == u'
  {
    TailsEqual(USER_DOCS_PREFIX, PrintInt(u) + ":docs", PrintInt(u') + ":docs");
    NoColonInUser(u);
    NoColonInUser(u');
    assert ":docs" == ":" + "docs";
    Keys.SplitAtColon(PrintInt(u), PrintInt(u'), "docs", "docs");
    PrintIntInjective(u, u');
  }

  /** Different places have different keys. */
  lemma EncodeInjective(s: Slot, t: Slot)
    requires Proper(s) && Proper(t) && Encode(s) == Encode(t)
    ensures s == t
  {
    KindOfKey(s);
    KindOfKey(t);
    match s {
      case DocSlot(user, doc) => DocKeysInjective(user, doc, t.user, t.doc);
      case ChunkSlot(user, doc, idx) => ChunkKeysInjective(user, doc, idx, t.user, t.doc, t.idx);
      case IndexSlot(user) => IndexKeysInjective(user, t.user);
    }
  }

  // ----- the scan of a deletion -----

  function PatternHead(user: int): string {
    CHUNK_PREFIX + (PrintInt(user) + ":")
  }

  /** The deletion scans for this pattern, whatever text it is given for a document id. */
  function Pattern(user: int, doc: string): string {
    PatternHead(user) + (doc + ":*")
  }

  predicate Matches(user: int, doc: string, key: string, signed: bool) {
    Glob(Tokens(Utf8(Pattern(user, doc)), signed), key)
  }

  /** What the pattern's part behind the user has to match in the key of a chunk. */
  function ChunkTail(doc: string, idx: nat): string {
    doc + (":" + Digits(idx))
  }

  /** That part of the pattern, as the server reads it. */
  function TailTokens(doc: string, signed: bool): seq<Token> {
    Tokens(Utf8(doc) + ":*", signed)
  }

  predicate Own(s: Slot, user: int, doc: string) {
    s.ChunkSlot? && s.user == user && s.doc == doc
  }

  lemma HeadIsPlain(user: int)
    ensures Plain(PatternHead(user)) && Ascii(PatternHead(user))
  {
    PrintIntShape(user);
    var head := PatternHead(user);
    assert Plain(CHUNK_PREFIX) && Ascii(CHUNK_PREFIX);
    forall i | 0 <= i < |head| ensures !Special(head[i]) && head[i] as int < 0x80 {
      if |CHUNK_PREFIX| <= i < |head| - 1 {
        assert head[i] in PrintInt(user);
      }
    }
  }

  lemma PatternBytes(user: int, doc: string)
    ensures Utf8(Pattern(user, doc)) == PatternHead(user) + (Utf8(doc) + ":*")
  {
    hide PatternHead;
    HeadIsPlain(user);
    Utf8Ascii(PatternHead(user));
    Utf8Ascii(":*");
    Utf8Join(PatternHead(user), doc + ":*");
    Utf8Join(doc, ":*");
  }

  lemma HeadOfChunk(user: int, d: string, i: nat)
    ensures ChunkKey(user, d, i) == PatternHead(user) + ChunkTail(d, i)
  {
  }

  lemma Regroup(a: string, b: string, c: string, d: string)
    ensures (a + (b + c)) + d == a + (b + (c + d))
  {
  }

  lemma HeadedChunkIsOwn(user: int, u: int, d: string, i: nat, rest: string)
    requires ChunkKey(u, d, i) == PatternHead(user) + rest
    ensures u == user
  {
    var text, text' := PrintInt(user) + (":" + rest), PrintInt(u) + (":" + ChunkTail(d, i));
    Regroup(CHUNK_PREFIX, PrintInt(user), ":", rest);
    hide PrintInt, Digits;
    TailsEqual(CHUNK_PREFIX, text, text');
    NoColonInUser(user);
    NoColonInUser(u);
    Keys.SplitAtColon(PrintInt(user), PrintInt(u), rest, ChunkTail(d, i));
    PrintIntInjective(user, u);
  }

  lemma HeadedKeyIsChunk(user: int, s: Slot)
    requires PatternHead(user) <= Encode(s)
    ensures s.ChunkSlot?
  {
    KindOfKey(s);
    assert PatternHead(user)[12] == CHUNK_PREFIX[12] == 'c';
  }

  /** Which keys start as the pattern does: the user's chunks. */
  lemma HeadMatches(user: int, s: Slot)
    ensures PatternHead(user) <= Encode(s) <==> s.ChunkSlot? && s.user == user
    ensures s.ChunkSlot? && s.user == user ==> Encode(s)[|PatternHead(user)|..] == ChunkTail(s.doc, s.idx)
  {
    hide PatternHead, ChunkKey, ChunkTail, DocKey, UserDocsKey;
    if s.ChunkSlot? && s.user == user {
      HeadOfChunk(user, s.doc, s.idx);
    }
    if PatternHead(user) <= Encode(s) {
      HeadedKeyIsChunk(user, s);
      var rest := Encode(s)[|PatternHead(user)|..];
      assert Encode(s) == PatternHead(user) + rest;
      HeadedChunkIsOwn(user, s.user, s.doc, s.idx, rest);
    }
  }

  lemma MatchesMeans(user: int, doc: string, s: Slot, signed: bool)
    ensures Matches(user, doc, Encode(s), signed) <==>
            s.ChunkSlot? && s.user == user && Glob(TailTokens(doc, signed), ChunkTail(s.doc, s.idx))
  {
    hide PatternHead, Pattern, Encode, ChunkTail, Utf8;
    HeadIsPlain(user);
    HeadMatches(user, s);
    PatternBytes(user, doc);
    PlainPrefix(PatternHead(user), Utf8(doc) + ":*", Encode(s), signed);
  }

  /** An argument without pattern characters matches the tails that start with it and a colon. */
  lemma PlainArgument(bytes: string, tail: string, signed: bool)
    requires Plain(bytes)
    ensures Glob(Tokens(bytes + ":*", signed), tail) <==> bytes + ":" <= tail
  {
    assert bytes + ":*" == (bytes + ":") + "*";
    PlainPrefix(bytes + ":", "*", tail, signed);
    if bytes + ":" <= tail {
      StarMatchesAll(tail[|bytes| + 1..], signed);
    }
  }

  /** The only colon of a tail is the one behind the id. */
  lemma ColonAtEnd(d: string, i: nat, k: nat)
    requires IsDocId(d) && k < |ChunkTail(d, i)| && ChunkTail(d, i)[k] == ':'
    ensures k == |d|
  {
    DigitsAreDigits(i);
    var tail := ChunkTail(d, i);
    assert forall j :: 0 <= j < |d| ==> tail[j] == d[j];
    assert forall j :: |d| < j < |tail| ==> tail[j] == Digits(i)[j - |d| - 1];
  }

  lemma TailStart(bytes: string, d: string, i: nat)
    requires IsDocId(d)
    ensures bytes + ":" <= ChunkTail(d, i) <==> bytes == d
  {
    var tail := ChunkTail(d, i);
    DigitsAreDigits(i);
    hide Digits, IsHex, IsDigit;
    assert tail == (d + ":") + Digits(i);
    if bytes + ":" <= tail {
      ColonAtEnd(d, i, |bytes|);
      assert tail[..|bytes|] == bytes && tail[..|d|] == d;
    }
  }

  /** The argument is a document id, or its pattern can match no chunk at all. */
  predicate Exact(doc: string, signed: bool) {
    IsDocId(doc) || !Hits(TailTokens(doc, signed), Id(ID_LENGTH))
  }

  lemma TailCompletes(d: string, i: nat)
    requires IsDocId(d)
    ensures Completes(Id(ID_LENGTH), ChunkTail(d, i))
  {
    var tail := ChunkTail(d, i);
    IdCompletes(ID_LENGTH, tail);
    DigitsAreNumerals(i);
    assert forall k :: 0 <= k < |d| ==> tail[k] == d[k];
    assert tail[|d| + 1..] == Digits(i);
  }

  lemma CompletedIsTail(w: string) returns (d: string, i: nat)
    requires Completes(Id(ID_LENGTH), w)
    ensures IsDocId(d) && w == ChunkTail(d, i)
  {
    IdCompletes(ID_LENGTH, w);
    NumeralsAreDigits(w[ID_LENGTH + 1..]);
    d, i := w[..ID_LENGTH], Value(w[ID_LENGTH + 1..]);
    assert w == d + ([w[ID_LENGTH]] + w[ID_LENGTH + 1..]);
  }

  lemma IdIsPlain(doc: string)
    requires IsDocId(doc)
    ensures Plain(doc) && Utf8(doc) == doc
  {
    Utf8Ascii(doc);
  }

  /** The scan finds a document's own chunks, if the argument is exact. */
  lemma ScanFindsOwnChunks(user: int, doc: string, s: Slot, signed: bool)
    requires Exact(doc, signed) && Proper(s)
    ensures Matches(user, doc, Encode(s), signed) <==> Own(s, user, doc)
  {
    hide Matches, Encode, ChunkTail, Hits, Glob, Tokens;
    MatchesMeans(user, doc, s, signed);
    if s.ChunkSlot? && s.user == user {
      if IsDocId(doc) {
        IdIsPlain(doc);
        PlainArgument(doc, ChunkTail(s.doc, s.idx), signed);
        TailStart(doc, s.doc, s.idx);
      } else if Matches(user, doc, Encode(s), signed) {
        TailCompletes(s.doc, s.idx);
        MatchHits(TailTokens(doc, signed), Id(ID_LENGTH), ChunkTail(s.doc, s.idx));
        assert false;
      }
    }
  }

  ghost predicate FindsOwnOnly(user: int, doc: string, signed: bool) {
    forall s :: Proper(s) ==> (Matches(user, doc, Encode(s), signed) <==> Own(s, user, doc))
  }

  /** Among all chunks there can be, the scan finds exactly the argument's own if and only if the argument is a document
      id or a pattern that fits no id, colon and number. */
  lemma ScanIsExactIff(user: int, doc: string, signed: bool)
    ensures FindsOwnOnly(user, doc, signed) <==> Exact(doc, signed)
  {
    hide Matches, Encode;
    if Exact(doc, signed) {
      forall s | Proper(s) ensures Matches(user, doc, Encode(s), signed) <==> Own(s, user, doc) {
        ScanFindsOwnChunks(user, doc, s, signed);
      }
    } else {
      var w := HitMatches(TailTokens(doc, signed), Id(ID_LENGTH));
      var d, i := CompletedIsTail(w);
      var s := ChunkSlot(user, d, i);
      MatchesMeans(user, doc, s, signed);
      assert Proper(s) && Matches(user, doc, Encode(s), signed) && !Own(s, user, doc);
    }
  }

  lemma {:induction false} PlainBytes(s: string)
    requires Plain(s)
    ensures Plain(Utf8(s))
  {
    if |s| > 0 {
      PlainBytes(s[1..]);
    }
  }

  /** Arguments without pattern characters are exact, whatever else they hold. */
  lemma PlainArgumentsAreExact(doc: string, signed: bool)
    requires Plain(doc)
    ensures Exact(doc, signed)
  {
    hide Utf8, Hits, Tokens, Glob, ChunkTail;
    if !Exact(doc, signed) {
      var w := HitMatches(TailTokens(doc, signed), Id(ID_LENGTH));
      var d, i := CompletedIsTail(w);
      PlainBytes(doc);
      PlainArgument(Utf8(doc), w, signed);
      TailStart(Utf8(doc), d, i);
      Utf8Ascii(doc);
      assert false;
    }
  }

  /** An asterisk matches every chunk of the user. */
  lemma AsteriskMatchesAll(user: int, s: Slot, signed: bool)
    ensures Matches(user, "*", Encode(s), signed) <==> s.ChunkSlot? && s.user == user
  {
    MatchesMeans(user, "*", s, signed);
    if s.ChunkSlot? {
      var rest := ":" + Digits(s.idx);
      Utf8Ascii("*");
      assert "*" + ":*" == "*:*";
      assert "*:*"[1..] == ":*" && ":*"[1..] == "*";
      assert Tokens("*:*", signed) == [Star] + Tokens(":*", signed);
      StarMatchesAll(Digits(s.idx), signed);
      assert rest[1..] == Digits(s.idx);
      assert Tokens(":*", signed) == [Lit(':')] + Tokens("*", signed);
      assert Glob(Tokens(":*", signed), rest);
      StarAbsorbs(Tokens(":*", signed), s.doc, rest);
    }
  }

  /** A bracket from g to a letter outside ASCII, and an asterisk. Where bytes are signed, the second bound comes first,
      and the bracket holds every hex digit. */
  const BRACKET := "[g-\U{E9}]*"

  lemma BracketBytes()
    ensures Utf8(BRACKET) == "[g-" + ([Byte(0xC3), Byte(0xA9)] + "]*")
  {
    hide Utf8;
    assert BRACKET == "[g-" + ("\U{E9}" + "]*");
    Utf8Join("[g-", "\U{E9}" + "]*");
    Utf8Join("\U{E9}", "]*");
    Utf8Ascii("[g-");
    Utf8Ascii("]*");
    LetterBytes();
  }

  lemma LetterBytes()
    ensures Utf8("\U{E9}") == [Byte(0xC3), Byte(0xA9)]
  {
    var letter := "\U{E9}";
    assert Utf8(letter[1..]) == [];
    assert Utf8Char(letter[0]) == [Byte(0xC3), Byte(0xA9)];
  }

  lemma ReadRange(low: char, high: char, p: string, signed: bool)
    requires low != '\\' && low != ']'
    ensures var (more, rest) := ReadRanges(p, signed);
            ReadRanges([low, '-', high] + p, signed) == ([Range(low, high, signed)] + more, rest)
  {
    assert ([low, '-', high] + p)[3..] == p;
  }

  lemma ReadByte(c: char, p: string, signed: bool)
    requires c != '\\' && c != ']' && |p| > 0 && p[0] != '-'
    ensures var (more, rest) := ReadRanges(p, signed);
            ReadRanges([c] + p, signed) == ([Range(c, c, signed)] + more, rest)
  {
    assert ([c] + p)[1] == p[0] && ([c] + p)[1..] == p;
  }

  lemma ReadEnd(p: string, signed: bool)
    ensures ReadRanges([']'] + p, signed) == ([], p)
  {
    assert ([']'] + p)[1..] == p;
  }

  lemma OpenBracket(p: string, signed: bool)
    requires |p| > 0 && p[0] != '^'
    ensures var (ranges, rest) := ReadRanges(p, signed);
            Tokens(['['] + p, signed) == [OneOf(false, ranges)] + Tokens(rest, signed)
  {
    assert (['['] + p)[1] == p[0] && (['['] + p)[1..] == p;
  }

  /** How a bracket of one range and one more byte is read. */
  lemma BracketIsRead(low: char, high: char, c: char, rest: string, signed: bool)
    requires low != '\\' && low != ']' && low != '^' && c != '\\' && c != ']'
    ensures Tokens(['['] + ([low, '-', high] + ([c] + ([']'] + rest))), signed) ==
            [OneOf(false, [Range(low, high, signed), Range(c, c, signed)])] + Tokens(rest, signed)
  {
    hide Tokens, ReadRanges, Range;
    var a, b := Range(low, high, signed), Range(c, c, signed);
    ReadEnd(rest, signed);
    ReadByte(c, [']'] + rest, signed);
    assert [b] + [] == [b] && [a] + [b] == [a, b];
    ReadRange(low, high, [c] + ([']'] + rest), signed);
    assert ReadRanges([low, '-', high] + ([c] + ([']'] + rest)), signed) == ([a, b], rest);
    OpenBracket([low, '-', high] + ([c] + ([']'] + rest)), signed);
  }

  lemma StarColonStar(signed: bool)
    ensures Tokens("*:*", signed) == [Star, Lit(':'), Star]
  {
    assert "*:*"[1..] == ":*" && ":*"[1..] == "*" && "*"[1..] == "";
    assert Tokens("*", signed) == [Star];
    assert Tokens(":*", signed) == [Lit(':'), Star];
  }

  function BracketToken(signed: bool): Token {
    OneOf(false, [Range('g', Byte(0xC3), signed), Range(Byte(0xA9), Byte(0xA9), signed)])
  }

  lemma BracketTokens(signed: bool)
    ensures TailTokens(BRACKET, signed) == [BracketToken(signed), Star, Lit(':'), Star]
  {
    hide Tokens, Utf8, Range;
    var high, c := Byte(0xC3), Byte(0xA9);
    BracketBytes();
    assert Utf8(BRACKET) + ":*" == ['['] + (['g', '-', high] + ([c] + ([']'] + "*:*")));
    BracketIsRead('g', high, c, "*:*", signed);
    StarColonStar(signed);
    assert TailTokens(BRACKET, signed) == [BracketToken(signed)] + Tokens("*:*", signed);
    assert [BracketToken(signed)] + [Star, Lit(':'), Star] == [BracketToken(signed), Star, Lit(':'), Star];
  }

  /** So the same argument matches every chunk of the user on a server whose bytes are signed, and is exact on one whose
      bytes are not. */
  lemma BracketDependsOnSign(user: int, s: Slot)
    requires Proper(s)
    ensures Matches(user, BRACKET, Encode(s), true) <==> s.ChunkSlot? && s.user == user
    ensures Exact(BRACKET, false)
  {
    hide Matches, Encode, TailTokens;
    BracketTokens(true);
    BracketTokens(false);
    MatchesMeans(user, BRACKET, s, true);
    if s.ChunkSlot? {
      BracketMatches(s.doc, s.idx);
    }
    BracketMisses();
  }

  lemma BracketMatches(d: string, i: nat)
    requires IsDocId(d)
    ensures Glob(TailTokens(BRACKET, true), ChunkTail(d, i))
  {
    hide TailTokens;
    BracketTokens(true);
    var ranges := BracketToken(true).ranges;
    assert ranges[0] == (0xC3 - 0x100, 'g' as int);
    assert InRanges(d[0] as int, ranges);
    var rest := ":" + Digits(i);
    assert rest[1..] == Digits(i);
    StarAbsorbs([], Digits(i), "");
    assert Digits(i) + "" == Digits(i) && [Star] + [] == [Star];
    assert [Lit(':'), Star][1..] == [Star];
    assert Glob([Lit(':'), Star], rest);
    StarAbsorbs([Lit(':'), Star], d[1..], rest);
    assert [Star] + [Lit(':'), Star] == [BracketToken(true), Star, Lit(':'), Star][1..];
    assert ChunkTail(d, i)[1..] == d[1..] + rest;
  }

  lemma BracketMisses()
    ensures !Hits(TailTokens(BRACKET, false), Id(ID_LENGTH))
  {
    hide TailTokens;
    BracketTokens(false);
    var ranges := BracketToken(false).ranges;
    assert ranges[0] == ('g' as int, 0xC3) && ranges[1] == (0xA9, 0xA9);
    assert forall c :: Next(Id(ID_LENGTH), c).Some? ==> !InRanges(c as int, ranges);
  }

  // ----- single places -----

  function At(keys: map<string, Val>, key: string): Option<Val> {
    if key in keys then Some(keys[key]) else None
  }

  /** What the server makes of a sorted set that loses a member: one that becomes empty disappears. */
  function Dropped(v: Option<Val>, doc: string): Option<Val> {
    if v.None? || !v.value.DocIndex? then v
    else if v.value.scores - {doc} == map[] then None
    else Some(DocIndex(v.value.scores - {doc}))
  }

  function Added(v: Option<Val>, doc: string, score: int): Val {
    DocIndex(ScoresAt(v)[doc := score])
  }

  /** The sorted set in a place, empty without one. */
  function ScoresAt(v: Option<Val>): map<string, int> {
    if v.Some? && v.value.DocIndex? then v.value.scores else map[]
  }

  function HashOf(value: Doc): Val {
    DocHash(value.filename, value.size, |value.chunks|, value.createdAt)
  }

  /** ZREM */
  function RemoveScore(keys: map<string, Val>, key: string, doc: string): map<string, Val> {
    var v := Dropped(At(keys, key), doc);
    if v.None? then keys - {key} else keys[key := v.value]
  }

  /** ZADD */
  function AddScore(keys: map<string, Val>, key: string, doc: string, score: int): map<string, Val> {
    keys[key := Added(At(keys, key), doc, score)]
  }

  /** The keys that the scan of a deletion finds. */
  function Scanned(keys: map<string, Val>, user: int, doc: string, signed: bool): set<string> {
    set k | k in keys && Matches(user, doc, k, signed)
  }

  /** The key space after a deletion. */
  function DeletedKeys(keys: map<string, Val>, user: int, doc: string, signed: bool): map<string, Val> {
    RemoveScore(keys - Scanned(keys, user, doc, signed) - {DocKey(user, doc)}, UserDocsKey(user), doc)
  }

  function WithChunks(keys: map<string, Val>, user: int, doc: string, chunks: seq<Chunk>, n: nat): map<string, Val>
    requires n <= |chunks|
  {
    if n == 0 then keys
    else WithChunks(keys, user, doc, chunks, n - 1)[ChunkKey(user, doc, n - 1) := ChunkHash(chunks[n - 1])]
  }

  /** The key space after the commands of an upload. */
  function WrittenKeys(keys: map<string, Val>, user: int, doc: string, value: Doc): map<string, Val> {
    var hashed := keys[DocKey(user, doc) := HashOf(value)];
    WithChunks(AddScore(hashed, UserDocsKey(user), doc, value.createdAt), user, doc, value.chunks, |value.chunks|)
  }

  /** An upload deletes the document first. */
  function UploadedKeys(keys: map<string, Val>, user: int, doc: string, value: Doc, signed: bool): map<string, Val> {
    WrittenKeys(DeletedKeys(keys, user, doc, signed), user, doc, value)
  }

  /** Which keys a deletion or an upload of a document touches besides its chunks. */
  lemma OwnKeys(user: int, doc: string, s: Slot)
    requires Proper(s)
    ensures Encode(s) == DocKey(user, doc) <==> s == DocSlot(user, doc)
    ensures Encode(s) == UserDocsKey(user) <==> s == IndexSlot(user)
    ensures DocKey(user, doc) != UserDocsKey(user)
  {
    KindOfKey(s);
    KindOfKey(DocSlot(user, doc));
    KindOfKey(IndexSlot(user));
    if Encode(s) == DocKey(user, doc) {
      DocKeysInjective(s.user, s.doc, user, doc);
    }
    if Encode(s) == UserDocsKey(user) {
      EncodeInjective(s, IndexSlot(user));
    }
  }

  /** What a deletion leaves in a place, in any key space. */
  lemma DeletedPlace(keys: map<string, Val>, user: int, doc: string, s: Slot, signed: bool)
    requires Proper(s)
    ensures At(DeletedKeys(keys, user, doc, signed), Encode(s)) ==
            if Matches(user, doc, Encode(s), signed) || s == DocSlot(user, doc) then None
            else if s == IndexSlot(user) then Dropped(At(keys, Encode(s)), doc)
            else At(keys, Encode(s))
  {
    hide Matches, Encode, DocKey, UserDocsKey, Dropped;
    OwnKeys(user, doc, s);
    IndexIsNotScanned(keys, user, doc, signed);
    var cut := keys - Scanned(keys, user, doc, signed) - {DocKey(user, doc)};
    assert At(cut, UserDocsKey(user)) == At(keys, UserDocsKey(user));
  }

  lemma IndexIsNotScanned(keys: map<string, Val>, user: int, doc: string, signed: bool)
    ensures !Matches(user, doc, UserDocsKey(user), signed) && UserDocsKey(user) !in Scanned(keys, user, doc, signed)
  {
    MatchesMeans(user, doc, IndexSlot(user), signed);
  }

  lemma DeletedKeysAreOld(keys: map<string, Val>, user: int, doc: string, signed: bool)
    ensures DeletedKeys(keys, user, doc, signed).Keys <= keys.Keys
  {
    hide Matches;
  }

  lemma {:induction false} WithChunksPlace(keys: map<string, Val>, user: int, doc: string, chunks: seq<Chunk>,
                                           n: nat, s: Slot)
    requires n <= |chunks| && IsDocId(doc) && Proper(s)
    ensures At(WithChunks(keys, user, doc, chunks, n), Encode(s)) ==
            if Own(s, user, doc) && s.idx < n then Some(ChunkHash(chunks[s.idx]))
            else At(keys, Encode(s))
  {
    hide ChunkKey, DocKey, UserDocsKey;
    if n > 0 {
      WithChunksPlace(keys, user, doc, chunks, n - 1, s);
      var c := ChunkSlot(user, doc, n - 1);
      if Encode(s) == Encode(c) {
        EncodeInjective(s, c);
      }
    }
  }

  lemma {:induction false} WithChunksKeys(keys: map<string, Val>, user: int, doc: string, chunks: seq<Chunk>,
                                          n: nat, key: string)
    requires n <= |chunks| && IsDocId(doc) && key in WithChunks(keys, user, doc, chunks, n)
    ensures key in keys || exists s :: Proper(s) && key == Encode(s)
  {
    if n > 0 {
      if key == ChunkKey(user, doc, n - 1) {
        assert key == Encode(ChunkSlot(user, doc, n - 1));
      } else {
        WithChunksKeys(keys, user, doc, chunks, n - 1, key);
      }
    }
  }

  lemma WrittenPlace(keys: map<string, Val>, user: int, doc: string, value: Doc, s: Slot)
    requires IsDocId(doc) && Proper(s)
    ensures At(WrittenKeys(keys, user, doc, value), Encode(s)) ==
            if Own(s, user, doc) && s.idx < |value.chunks| then Some(ChunkHash(value.chunks[s.idx]))
            else if s == DocSlot(user, doc) then Some(HashOf(value))
            else if s == IndexSlot(user) then Some(Added(At(keys, Encode(s)), doc, value.createdAt))
            else At(keys, Encode(s))
  {
    hide Encode, DocKey, UserDocsKey, WithChunks, HashOf, Added;
    OwnKeys(user, doc, s);
    var hashed := keys[DocKey(user, doc) := HashOf(value)];
    WithChunksPlace(AddScore(hashed, UserDocsKey(user), doc, value.createdAt), user, doc, value.chunks,
                    |value.chunks|, s);
  }

  /** What an upload leaves in a place, in any key space: the document's hash, index entry and chunks are exactly the
      new ones, and every other place is as it was. */
  lemma UploadedPlace(keys: map<string, Val>, user: int, doc: string, value: Doc, s: Slot, signed: bool)
    requires IsDocId(doc) && Proper(s)
    ensures At(UploadedKeys(keys, user, doc, value, signed), Encode(s)) ==
            if Own(s, user, doc) then
              if s.idx < |value.chunks| then Some(ChunkHash(value.chunks[s.idx])) else None
            else if s == DocSlot(user, doc) then
              Some(DocHash(value.filename, value.size, |value.chunks|, value.createdAt))
            else if s == IndexSlot(user) then Some(DocIndex(ScoresAt(At(keys, Encode(s)))[doc := value.createdAt]))
            else At(keys, Encode(s))
  {
    hide Matches, Encode, WrittenKeys, DeletedKeys, Exact;
    WrittenPlace(DeletedKeys(keys, user, doc, signed), user, doc, value, s);
    DeletedPlace(keys, user, doc, s, signed);
    IdIsExact(doc, signed);
    ScanFindsOwnChunks(user, doc, s, signed);
    AddedDropped(At(keys, Encode(s)), doc, value.createdAt);
  }

  lemma IdIsExact(doc: string, signed: bool)
    requires IsDocId(doc)
    ensures Exact(doc, signed)
  {
  }

  lemma AddedDropped(v: Option<Val>, doc: string, score: int)
    ensures Added(Dropped(v, doc), doc, score) == Added(v, doc, score)
  {
    if v.Some? && v.value.DocIndex? {
      assert (v.value.scores - {doc})[doc := score] == v.value.scores[doc := score];
    }
  }

  lemma UploadedKeyHasPlace(keys: map<string, Val>, user: int, doc: string, value: Doc, signed: bool, key: string)
    requires IsDocId(doc) && key in UploadedKeys(keys, user, doc, value, signed)
    ensures key in keys || exists s :: Proper(s) && key == Encode(s)
  {
    hide DeletedKeys, WithChunks;
    var cut := DeletedKeys(keys, user, doc, signed);
    DeletedKeysAreOld(keys, user, doc, signed);
    var hashed := cut[DocKey(user, doc) := HashOf(value)];
    var listed := AddScore(hashed, UserDocsKey(user), doc, value.createdAt);
    WithChunksKeys(listed, user, doc, value.chunks, |value.chunks|, key);
    assert Proper(DocSlot(user, doc)) && Encode(DocSlot(user, doc)) == DocKey(user, doc);
    assert Proper(IndexSlot(user)) && Encode(IndexSlot(user)) == UserDocsKey(user);
  }

  // ----- the nested map a key space stands for -----

  type Nested = map<int, map<string, Doc>>

  function DocsOf(n: Nested, user: int): map<string, Doc> {
    if user in n then n[user] else map[]
  }

  function Scores(docs: map<string, Doc>): map<string, int> {
    map d | d in docs :: docs[d].createdAt
  }

  /** What the nested map puts into a place; an empty sorted set has no key. */
  function ValueAt(n: Nested, s: Slot): Option<Val> {
    var docs := DocsOf(n, s.user);
    match s
    case DocSlot(_, d) =>
      if d in docs then Some(DocHash(docs[d].filename, docs[d].size, |docs[d].chunks|, docs[d].createdAt)) else None
    case ChunkSlot(_, d, i) => if d in docs && i < |docs[d].chunks| then Some(ChunkHash(docs[d].chunks[i])) else None
    case IndexSlot(_) => if docs == map[] then None else Some(DocIndex(Scores(docs)))
  }

  /** A place shows what the nested map puts into it, except that chunks of torn documents may be missing. */
  predicate Shows(v: Option<Val>, n: Nested, torn: set<(int, string)>, s: Slot) {
    v == ValueAt(n, s) || (v.None? && s.ChunkSlot? && (s.user, s.doc) in torn)
  }

  /** The flat key space holds the nested map but for missing chunks of torn documents: every place shows it under its
      key, and there is no other key. */
  ghost predicate Holds(keys: map<string, Val>, n: Nested, torn: set<(int, string)>) {
    && (forall u, d :: u in n && d in n[u] ==> IsDocId(d))
    && (forall s :: Proper(s) ==> Shows(At(keys, Encode(s)), n, torn, s))
    && (forall key :: key in keys ==> exists s :: Proper(s) && key == Encode(s))
  }

  /** The flat key space is the nested map. */
  ghost predicate Represents(keys: map<string, Val>, n: Nested) {
    Holds(keys, n, {})
  }

  function WithoutDoc(n: Nested, user: int, doc: string): Nested {
    if user in n then n[user := n[user] - {doc}] else n
  }

  function WithDoc(n: Nested, user: int, doc: string, value: Doc): Nested {
    n[user := DocsOf(n, user)[doc := value]]
  }

  /** The documents of a user. */
  function Listed(n: Nested, user: int): set<(int, string)> {
    set d | d in DocsOf(n, user) :: (user, d)
  }

  lemma ScoresWithout(docs: map<string, Doc>, doc: string)
    ensures Scores(docs) - {doc} == Scores(docs - {doc})
    ensures docs - {doc} == map[] <==> Scores(docs) - {doc} == map[]
    ensures docs == map[] <==> Scores(docs) == map[]
  {
    assert forall d :: d in docs - {doc} <==> d in Scores(docs) - {doc};
    assert forall d :: d in docs <==> d in Scores(docs);
  }

  lemma ScoresWith(docs: map<string, Doc>, doc: string, value: Doc)
    ensures Scores(docs[doc := value]) == Scores(docs)[doc := value.createdAt]
    ensures docs == map[] ==> Scores(docs[doc := value]) == map[doc := value.createdAt]
    ensures docs[doc := value] != map[]
  {
    assert doc in docs[doc := value];
  }

  /** A place after an exact deletion. */
  lemma DeletedShows(v: Option<Val>, n: Nested, torn: set<(int, string)>, user: int, doc: string, s: Slot)
    requires Shows(v, n, torn, s)
    ensures var v' := if Own(s, user, doc) || s == DocSlot(user, doc) then None
                      else if s == IndexSlot(user) then Dropped(v, doc) else v;
            Shows(v', WithoutDoc(n, user, doc), torn - {(user, doc)}, s)
  {
    ScoresWithout(DocsOf(n, user), doc);
  }

  /** A place after a deletion whose argument is no document id: chunks of the user may be gone. */
  lemma InexactShows(v: Option<Val>, n: Nested, torn: set<(int, string)>, user: int, doc: string, s: Slot, hit: bool)
    requires Shows(v, n, torn, s) && Proper(s) && (hit ==> s.ChunkSlot? && s.user == user)
    requires doc !in DocsOf(n, user) && !IsDocId(doc)
    ensures var v' := if hit || s == DocSlot(user, doc) then None
                      else if s == IndexSlot(user) then Dropped(v, doc) else v;
            && v' == (if hit then None else v)
            && Shows(v', n, torn + Listed(n, user), s)
  {
    ScoresWithout(DocsOf(n, user), doc);
    assert DocsOf(n, user) - {doc} == DocsOf(n, user);
  }

  /** A place after an upload. */
  lemma UploadedShows(v: Option<Val>, n: Nested, torn: set<(int, string)>, user: int, doc: string, value: Doc, s: Slot)
    requires Shows(v, n, torn, s)
    ensures var v' := if Own(s, user, doc) then
                        if s.idx < |value.chunks| then Some(ChunkHash(value.chunks[s.idx])) else None
                      else if s == DocSlot(user, doc) then Some(HashOf(value))
                      else if s == IndexSlot(user) then Some(Added(v, doc, value.createdAt)) else v;
            Shows(v', WithDoc(n, user, doc, value), torn - {(user, doc)}, s)
  {
    ScoresWith(DocsOf(n, user), doc, value);
  }

  /** An exact deletion empties the document's places, takes it off the index, and touches no other place. */
  lemma DeletedHolds(keys: map<string, Val>, n: Nested, torn: set<(int, string)>, user: int, doc: string, signed: bool)
    requires Holds(keys, n, torn) && Exact(doc, signed)
    ensures Holds(DeletedKeys(keys, user, doc, signed), WithoutDoc(n, user, doc), torn - {(user, doc)})
  {
    hide DeletedKeys, Exact, Matches, Shows, Encode;
    forall s | Proper(s)
      ensures Shows(At(DeletedKeys(keys, user, doc, signed), Encode(s)), WithoutDoc(n, user, doc),
                    torn - {(user, doc)}, s)
    {
      DeletedPlace(keys, user, doc, s, signed);
      ScanFindsOwnChunks(user, doc, s, signed);
      DeletedShows(At(keys, Encode(s)), n, torn, user, doc, s);
    }
    DeletedKeysAreOld(keys, user, doc, signed);
  }

  lemma InexactHolds(keys: map<string, Val>, n: Nested, torn: set<(int, string)>, user: int, doc: string,
                     signed: bool)
    requires Holds(keys, n, torn) && !IsDocId(doc)
    ensures Holds(DeletedKeys(keys, user, doc, signed), n, torn + Listed(n, user))
  {
    hide DeletedKeys, Matches, Shows, Encode;
    forall s | Proper(s)
      ensures Shows(At(DeletedKeys(keys, user, doc, signed), Encode(s)), n, torn + Listed(n, user), s)
    {
      DeletedPlace(keys, user, doc, s, signed);
      MatchesMeans(user, doc, s, signed);
      InexactShows(At(keys, Encode(s)), n, torn, user, doc, s, Matches(user, doc, Encode(s), signed));
    }
    DeletedKeysAreOld(keys, user, doc, signed);
  }

  /** An upload fills exactly the document's places, mends it if it was torn, and leaves every other place as it was. */
  lemma UploadedHolds(keys: map<string, Val>, n: Nested, torn: set<(int, string)>, user: int, doc: string, value: Doc,
                      signed: bool)
    requires Holds(keys, n, torn) && IsDocId(doc)
    ensures Holds(UploadedKeys(keys, user, doc, value, signed), WithDoc(n, user, doc, value), torn - {(user, doc)})
  {
    hide UploadedKeys, Shows, Encode;
    var after := UploadedKeys(keys, user, doc, value, signed);
    forall s | Proper(s) ensures Shows(At(after, Encode(s)), WithDoc(n, user, doc, value), torn - {(user, doc)}, s) {
      UploadedPlace(keys, user, doc, value, s, signed);
      UploadedShows(At(keys, Encode(s)), n, torn, user, doc, value, s);
    }
    forall key | key in after ensures exists s :: Proper(s) && key == Encode(s) {
      UploadedKeyHasPlace(keys, user, doc, value, signed, key);
    }
  }

  lemma DocKeyMeans(keys: map<string, Val>, n: Nested, torn: set<(int, string)>, user: int, doc: string)
    requires Holds(keys, n, torn)
    ensures DocKey(user, doc) in keys <==> doc in DocsOf(n, user)
  {
    if IsDocId(doc) {
      assert Shows(At(keys, Encode(DocSlot(user, doc))), n, torn, DocSlot(user, doc));
    } else if DocKey(user, doc) in keys {
      var s :| Proper(s) && DocKey(user, doc) == Encode(s);
      KindOfKey(s);
      KindOfKey(DocSlot(user, doc));
      DocKeysInjective(user, doc, s.user, s.doc);
      assert false;
    }
  }

  lemma ExistsMeans(keys: map<string, Val>, n: Nested, torn: set<(int, string)>, user: int, doc: string, signed: bool)
    requires Holds(keys, n, torn) && Exact(doc, signed)
    ensures Scanned(keys, user, doc, signed) != {} || DocKey(user, doc) in keys <==> doc in DocsOf(n, user)
  {
    hide Exact, Matches;
    DocKeyMeans(keys, n, torn, user, doc);
    if Scanned(keys, user, doc, signed) != {} {
      var k :| k in Scanned(keys, user, doc, signed);
      var s :| Proper(s) && k == Encode(s);
      ScanFindsOwnChunks(user, doc, s, signed);
      assert Shows(At(keys, Encode(s)), n, torn, s);
    }
  }

  lemma WithoutAbsentDoc(n: Nested, user: int, doc: string)
    requires doc !in DocsOf(n, user)
    ensures WithoutDoc(n, user, doc) == n
  {
    assert user in n ==> n[user] - {doc} == n[user];
  }

  /** Only listed documents can be missing chunks, so a document that is not listed is not torn. */
  lemma NotTorn(keys: map<string, Val>, n: Nested, torn: set<(int, string)>, user: int, doc: string)
    requires Holds(keys, n, torn) && doc !in DocsOf(n, user)
    ensures Holds(keys, n, torn - {(user, doc)})
  {
    hide Encode;
    forall s | Proper(s) ensures Shows(At(keys, Encode(s)), n, torn - {(user, doc)}, s) {
      assert Shows(At(keys, Encode(s)), n, torn, s);
    }
  }

  // ----- the store -----

  class Redis {
    const signed: bool
    var keys: map<string, Val>
    ghost var nested: Nested
    ghost var torn: set<(int, string)>

    /** `torn` holds the documents that may be missing chunks; while it is empty, the keys are the nested map. */
    ghost predicate Valid()
      reads this
    {
      Holds(keys, nested, torn)
    }

    constructor (signed: bool)
      ensures Valid() && nested == map[] && torn == {} && this.signed == signed
    {
      this.signed := signed;
      keys, nested, torn := map[], map[], {};
    }

    /** The argument may be any text. For an exact one, this is the removal of the document from the nested map. */
    method DeleteDocument(user: int, doc: string, missingOk: bool) returns (existed: bool)
      requires Valid()
      modifies this
      ensures Valid()
      ensures existed <==> Scanned(old(keys), user, doc, signed) != {} || DocKey(user, doc) in old(keys)
      ensures keys == if existed || missingOk then DeletedKeys(old(keys), user, doc, signed) else old(keys)
      ensures Exact(doc, signed) ==>
                && nested == WithoutDoc(old(nested), user, doc) && torn == old(torn) - {(user, doc)}
                && (existed <==> doc in DocsOf(old(nested), user))
      ensures !Exact(doc, signed) ==>
                nested == old(nested) && torn == old(torn) + if existed then Listed(nested, user) else {}
    {
      var found := set k | k in keys && Matches(user, doc, k, signed);
      var docKey, indexKey := DocKey(user, doc), UserDocsKey(user);
      existed := found != {} || docKey in keys;
      NestedAfterDeletion(existed, user, doc);
      if !existed && !missingOk {
        return;
      }
      keys := keys - found;
      keys := keys - {docKey};
      keys := RemoveScore(keys, indexKey, doc);
    }

    /** What a deletion does to the nested map, for the keys before it if nothing was found, and for those after it. */
    ghost method NestedAfterDeletion(existed: bool, user: int, doc: string)
      requires Valid()
      requires existed <==> Scanned(keys, user, doc, signed) != {} || DocKey(user, doc) in keys
      modifies this`nested, this`torn
      ensures Exact(doc, signed) ==>
                && nested == WithoutDoc(old(nested), user, doc) && torn == old(torn) - {(user, doc)}
                && (existed <==> doc in DocsOf(old(nested), user))
      ensures !Exact(doc, signed) ==>
                nested == old(nested) && torn == old(torn) + if existed then Listed(nested, user) else {}
      ensures Holds(DeletedKeys(keys, user, doc, signed), nested, torn)
      ensures !existed ==> Holds(keys, nested, torn)
    {
      hide Holds, Exact, DeletedKeys, Scanned, DocKey;
      if Exact(doc, signed) {
        ExistsMeans(keys, nested, torn, user, doc, signed);
        DeletedHolds(keys, nested, torn, user, doc, signed);
        if !existed {
          WithoutAbsentDoc(nested, user, doc);
          NotTorn(keys, nested, torn, user, doc);
        }
        nested, torn := WithoutDoc(nested, user, doc), torn - {(user, doc)};
      } else {
        NoIdIsInexact(doc, signed);
        InexactHolds(keys, nested, torn, user, doc, signed);
        if existed {
          torn := torn + Listed(nested, user);
        } else {
          NothingDeleted(keys, nested, torn, user, doc, signed);
        }
      }
    }

    method UpsertDocument(user: int, doc: string, filename: string, size: int, chunks: seq<Chunk>,
                          embeddings: nat, now: int)
      returns (ok: bool)
      requires Valid() && IsDocId(doc)
      modifies this
      ensures Valid()
      ensures ok <==> |chunks| == embeddings
      ensures !ok ==> keys == old(keys) && nested == old(nested) && torn == old(torn)
      ensures ok ==> var value := Doc(filename, size, now, chunks);
                     && keys == UploadedKeys(old(keys), user, doc, value, signed)
                     && nested == WithDoc(old(nested), user, doc, value)
                     && torn == old(torn) - {(user, doc)}
    {
      hide DeletedKeys, Exact, Holds, Scanned;
      if |chunks| != embeddings {
        return false;
      }
      ghost var value := Doc(filename, size, now, chunks);
      ghost var before := keys;
      UploadedHolds(keys, nested, torn, user, doc, value, signed);
      IdIsExact(doc, signed);
      var existed := DeleteDocument(user, doc, true);
      WithDocTwice(old(nested), user, doc, value);
      keys := keys[DocKey(user, doc) := DocHash(filename, size, |chunks|, now)];
      keys := AddScore(keys, UserDocsKey(user), doc, now);
      WriteChunks(user, doc, chunks);
      nested := WithDoc(nested, user, doc, value);
      return true;
    }

    method WriteChunks(user: int, doc: string, chunks: seq<Chunk>)
      modifies this`keys
      ensures keys == WithChunks(old(keys), user, doc, chunks, |chunks|)
    {
      for i := 0 to |chunks|
        invariant keys == WithChunks(old(keys), user, doc, chunks, i)
      {
        keys := keys[ChunkKey(user, doc, i) := ChunkHash(chunks[i])];
      }
    }

    /** HGETALL on a document's key. */
    method ReadDocument(user: int, doc: string) returns (r: Option<Val>)
      requires Valid() && IsDocId(doc)
      ensures r == ValueAt(nested, DocSlot(user, doc))
    {
      assert Shows(At(keys, Encode(DocSlot(user, doc))), nested, torn, DocSlot(user, doc));
      r := if DocKey(user, doc) in keys then Some(keys[DocKey(user, doc)]) else None;
    }
  }

  lemma NoIdIsInexact(doc: string, signed: bool)
    requires !Exact(doc, signed)
    ensures !IsDocId(doc)
  {
  }

  lemma WithDocTwice(n: Nested, user: int, doc: string, value: Doc)
    ensures WithDoc(WithoutDoc(n, user, doc), user, doc, value) == WithDoc(n, user, doc, value)
  {
    assert (DocsOf(n, user) - {doc})[doc := value] == DocsOf(n, user)[doc := value];
  }

  // ----- deletions whose argument is no document id -----

  /** Such a deletion removes the chunks its pattern matches, and nothing else: hashes and indexes stay. */
  lemma InexactDeletion(keys: map<string, Val>, n: Nested, torn: set<(int, string)>, user: int, doc: string, s: Slot,
                        signed: bool)
    requires Holds(keys, n, torn) && !IsDocId(doc) && Proper(s)
    ensures At(DeletedKeys(keys, user, doc, signed), Encode(s)) ==
            if Matches(user, doc, Encode(s), signed) then None else At(keys, Encode(s))
  {
    hide Matches, Encode, DeletedKeys, Shows;
    DeletedPlace(keys, user, doc, s, signed);
    MatchesMeans(user, doc, s, signed);
    InexactShows(At(keys, Encode(s)), n, torn, user, doc, s, Matches(user, doc, Encode(s), signed));
  }

  lemma NothingDeleted(keys: map<string, Val>, n: Nested, torn: set<(int, string)>, user: int, doc: string,
                       signed: bool)
    requires Holds(keys, n, torn) && !IsDocId(doc) && Scanned(keys, user, doc, signed) == {}
    ensures Holds(DeletedKeys(keys, user, doc, signed), n, torn)
  {
    hide DeletedKeys, Matches, Encode, Shows;
    forall s | Proper(s) ensures Shows(At(DeletedKeys(keys, user, doc, signed), Encode(s)), n, torn, s) {
      InexactDeletion(keys, n, torn, user, doc, s, signed);
      if Matches(user, doc, Encode(s), signed) {
        assert Encode(s) !in Scanned(keys, user, doc, signed);
      }
    }
    DeletedKeysAreOld(keys, user, doc, signed);
  }

  /** Deleting "*" removes every chunk of every document of the user, and leaves the documents listed. */
  lemma AsteriskDeletesAllChunks(keys: map<string, Val>, n: Nested, torn: set<(int, string)>, user: int, s: Slot,
                                 signed: bool)
    requires Holds(keys, n, torn) && Proper(s)
    ensures !Exact("*", signed)
    ensures At(DeletedKeys(keys, user, "*", signed), Encode(s)) ==
            if s.ChunkSlot? && s.user == user then None else At(keys, Encode(s))
  {
    hide DeletedKeys, Matches, Holds, Encode;
    InexactDeletion(keys, n, torn, user, "*", s, signed);
    AsteriskMatchesAll(user, s, signed);
    var d := seq(ID_LENGTH, i => '0');
    AsteriskMatchesAll(user, ChunkSlot(user, d, 0), signed);
    if Exact("*", signed) {
      ScanFindsOwnChunks(user, "*", ChunkSlot(user, d, 0), signed);
    }
  }

  /** What is left behind such a deletion stands for a nested map only if nothing was deleted. */
  lemma InexactDeletionBreaksIff(keys: map<string, Val>, n: Nested, user: int, doc: string, signed: bool)
    requires Represents(keys, n) && !IsDocId(doc)
    ensures (exists n' :: Represents(DeletedKeys(keys, user, doc, signed), n')) <==>
            Scanned(keys, user, doc, signed) == {}
  {
    hide DeletedKeys, Scanned;
    var after := DeletedKeys(keys, user, doc, signed);
    if Scanned(keys, user, doc, signed) == {} {
      NothingDeleted(keys, n, {}, user, doc, signed);
      assert Represents(after, n);
    } else {
      forall n' ensures !Represents(after, n') {
        ChunkIsMissed(keys, n, n', user, doc, signed);
      }
    }
  }

  /** A chunk that was scanned is still counted by its document's hash. */
  lemma ChunkIsMissed(keys: map<string, Val>, n: Nested, n': Nested, user: int, doc: string, signed: bool)
    requires Represents(keys, n) && !IsDocId(doc) && Scanned(keys, user, doc, signed) != {}
    ensures !Represents(DeletedKeys(keys, user, doc, signed), n')
  {
    hide DeletedKeys, Matches;
    var after := DeletedKeys(keys, user, doc, signed);
    var k :| k in Scanned(keys, user, doc, signed);
    var s :| Proper(s) && k == Encode(s);
    MatchesMeans(user, doc, s, signed);
    var hash := DocSlot(s.user, s.doc);
    assert Shows(At(keys, Encode(s)), n, {}, s) && Shows(At(keys, Encode(hash)), n, {}, hash);
    MatchesMeans(user, doc, hash, signed);
    InexactDeletion(keys, n, {}, user, doc, s, signed);
    InexactDeletion(keys, n, {}, user, doc, hash, signed);
    if Shows(At(after, Encode(hash)), n', {}, hash) {
      assert !Shows(At(after, Encode(s)), n', {}, s);
    }
  }

  // ----- mending -----

  datatype Upload = Upload(user: int, doc: string, value: Doc)

  function UploadAll(keys: map<string, Val>, uploads: seq<Upload>, signed: bool): map<string, Val> {
    if |uploads| == 0 then keys
    else
      var u := uploads[|uploads| - 1];
      UploadedKeys(UploadAll(keys, uploads[..|uploads| - 1], signed), u.user, u.doc, u.value, signed)
  }

  function WithAll(n: Nested, uploads: seq<Upload>): Nested {
    if |uploads| == 0 then n
    else var u := uploads[|uploads| - 1]; WithDoc(WithAll(n, uploads[..|uploads| - 1]), u.user, u.doc, u.value)
  }

  function Named(uploads: seq<Upload>): set<(int, string)> {
    set i | 0 <= i < |uploads| :: (uploads[i].user, uploads[i].doc)
  }

  lemma {:induction false} UploadsHold(keys: map<string, Val>, n: Nested, torn: set<(int, string)>,
                                       uploads: seq<Upload>, signed: bool)
    requires Holds(keys, n, torn) && forall i :: 0 <= i < |uploads| ==> IsDocId(uploads[i].doc)
    ensures Holds(UploadAll(keys, uploads, signed), WithAll(n, uploads), torn - Named(uploads))
  {
    hide Holds, UploadedKeys, WithDoc;
    if |uploads| == 0 {
      assert torn - Named(uploads) == torn;
    } else {
      var front, u := uploads[..|uploads| - 1], uploads[|uploads| - 1];
      UploadsHold(keys, n, torn, front, signed);
      UploadedHolds(UploadAll(keys, front, signed), WithAll(n, front), torn - Named(front), u.user, u.doc, u.value,
                    signed);
      NamedSnoc(uploads);
      assert torn - Named(front) - {(u.user, u.doc)} == torn - Named(uploads);
    }
  }

  lemma NamedSnoc(uploads: seq<Upload>)
    requires |uploads| > 0
    ensures var u := uploads[|uploads| - 1]; Named(uploads) == Named(uploads[..|uploads| - 1]) + {(u.user, u.doc)}
  {
    var front := uploads[..|uploads| - 1];
    forall x | x in Named(uploads) ensures x in Named(front) + {(uploads[|front|].user, uploads[|front|].doc)} {
      var i :| 0 <= i < |uploads| && x == (uploads[i].user, uploads[i].doc);
      assert i < |front| ==> front[i] == uploads[i];
    }
    forall x | x in Named(front) ensures x in Named(uploads) {
      var i :| 0 <= i < |front| && x == (front[i].user, front[i].doc);
      assert uploads[i] == front[i];
    }
  }

  /** Uploading every listed document of the user again, in any order and with any content, mends what a deletion with
      any argument has torn: the keys are a nested map again, the one with the new contents. */
  lemma UploadingAgainMends(keys: map<string, Val>, n: Nested, user: int, doc: string, uploads: seq<Upload>,
                            signed: bool)
    requires Represents(keys, n) && !IsDocId(doc)
    requires forall i :: 0 <= i < |uploads| ==> IsDocId(uploads[i].doc)
    requires Listed(n, user) <= Named(uploads)
    ensures Represents(UploadAll(DeletedKeys(keys, user, doc, signed), uploads, signed), WithAll(n, uploads))
  {
    hide Holds, UploadAll, DeletedKeys;
    InexactHolds(keys, n, {}, user, doc, signed);
    UploadsHold(DeletedKeys(keys, user, doc, signed), n, {} + Listed(n, user), uploads, signed);
    assert {} + Listed(n, user) - Named(uploads) == {};
  }
}
