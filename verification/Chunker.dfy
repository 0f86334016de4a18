/** The overlapping chunker and the chunk metadata of an uploaded document. */
module Chunker {
  import opened Basics
  import opened Text
  import opened Normalizer
  import Decimal

  /** The environment value MODSTORE_KB_CHUNK_SIZE (default 1000), clamped. */
  function ChunkSize(env: int): (size: int)
    ensures 400 <= size <= 4000
    ensures size == env || (env < 400 && size == 400) || (env > 4000 && size == 4000)
  {
    Max(400, Min(env, 4000))
  }

  /** The environment value MODSTORE_KB_CHUNK_OVERLAP (default 120), clamped, and cut below the chunk size. */
  function ChunkOverlap(env: int, size: int): (overlap: int)
    requires size > 0
    ensures 0 <= overlap < size
    ensures || overlap == env || (env < 0 && overlap == 0)
            || (env > overlap && (overlap == 800 || overlap == size - 1))
    ensures overlap <= 800
  {
    Min(Max(0, Min(env, 800)), Max(0, size - 1))
  }

  // ----- closed form: window i of a text -----

  /** How many windows a text of the given length is cut into. */
  function WindowCount(length: nat, size: int, overlap: int): (n: nat)
    requires 0 <= overlap < size
    ensures length == 0 <==> n == 0
  {
    if length == 0 then 0
    else if length <= size then 1
    else 1 + WindowCount(length - (size - overlap), size, overlap)
  }

  function WindowStart(i: nat, size: int, overlap: int): int
    requires 0 <= overlap < size
  {
    if i == 0 then 0 else WindowStart(i - 1, size, overlap) + (size - overlap)
  }

  lemma {:induction false} WindowStartIsProduct(i: nat, size: int, overlap: int)
    requires 0 <= overlap < size
    ensures WindowStart(i, size, overlap) == i * (size - overlap)
  {
    if i > 0 {
      WindowStartIsProduct(i - 1, size, overlap);
      assert i * (size - overlap) == (i - 1) * (size - overlap) + (size - overlap);
    }
  }

  function WindowEnd(length: nat, i: nat, size: int, overlap: int): int
    requires 0 <= overlap < size
  {
    Min(length, WindowStart(i, size, overlap) + size)
  }

  /** The windows are exactly those whose predecessor did not reach the end, and the last one does reach it. */
  lemma {:induction false} WindowCountChar(length: nat, i: nat, size: int, overlap: int)
    requires 0 <= overlap < size && length > 0
    ensures i < WindowCount(length, size, overlap) <==>
            i == 0 || WindowStart(i - 1, size, overlap) + size < length
    ensures i < WindowCount(length, size, overlap) ==> 0 <= WindowStart(i, size, overlap) < length
    decreases i
  {
    if i > 0 {
      StartNonnegative(i - 1, size, overlap);
      if length > size {
        WindowCountChar(length - (size - overlap), i - 1, size, overlap);
      }
    }
  }

  lemma {:induction false} StartNonnegative(i: nat, size: int, overlap: int)
    requires 0 <= overlap < size
    ensures 0 <= WindowStart(i, size, overlap)
  {
    if i > 0 {
      StartNonnegative(i - 1, size, overlap);
    }
  }

  /** ceil((length - overlap) / (size - overlap)) windows for a text that does not fit into one. */
  lemma WindowCountClosedForm(length: nat, size: int, overlap: int)
    requires 0 <= overlap < size < length
    ensures WindowCount(length, size, overlap) ==
            (length - overlap + (size - overlap) - 1) / (size - overlap)
  {
    var step := size - overlap;
    var n := WindowCount(length, size, overlap);
    WindowCountChar(length, n, size, overlap);
    WindowCountChar(length, n - 1, size, overlap);
    assert WindowCount(length - step, size, overlap) > 0;
    WindowStartIsProduct(n - 1, size, overlap);
    WindowStartIsProduct(n - 2, size, overlap);
    CeilDivIs(length - overlap, step, n);
  }

  lemma MulMonotone(a: int, b: int, step: int)
    requires step > 0
    ensures a <= b ==> a * step <= b * step
  {
  }

  lemma CeilDivIs(m: int, step: int, n: int)
    requires step > 0 && (n - 1) * step < m <= n * step
    ensures n == (m + step - 1) / step
  {
    var q, r := (m + step - 1) / step, (m + step - 1) % step;
    assert m + step - 1 == q * step + r && 0 <= r < step;
    MulMonotone(q, n - 1, step);
    MulMonotone(n + 1, q, step);
  }

  function Window(t: string, i: nat, size: int, overlap: int): string
    requires 0 <= overlap < size && i < WindowCount(|t|, size, overlap)
  {
    WindowCountChar(|t|, i, size, overlap);
    t[WindowStart(i, size, overlap)..WindowEnd(|t|, i, size, overlap)]
  }

  /** The first n windows, stripped, without those that are nothing but whitespace. */
  function Pieces(t: string, n: nat, size: int, overlap: int): seq<string>
    requires 0 <= overlap < size && n <= WindowCount(|t|, size, overlap)
  {
    if n == 0 then []
    else
      var piece := Strip(Window(t, n - 1, size, overlap));
      Pieces(t, n - 1, size, overlap) + if piece == [] then [] else [piece]
  }

  function Chunks(t: string, size: int, overlap: int): seq<string>
    requires 0 <= overlap < size
  {
    Pieces(t, WindowCount(|t|, size, overlap), size, overlap)
  }

  /** Where the loop stands before round k: at the start of window k, with the pieces of the windows before it. */
  ghost predicate AtWindow(t: string, k: nat, pos: int, chunks: seq<string>, size: int, overlap: int)
    requires 0 <= overlap < size
  {
    && k < WindowCount(|t|, size, overlap)
    && pos == WindowStart(k, size, overlap)
    && chunks == Pieces(t, k, size, overlap)
  }

  lemma WindowRound(t: string, k: nat, pos: int, chunks: seq<string>, size: int, overlap: int)
    requires 0 <= overlap < size && |t| > 0 && AtWindow(t, k, pos, chunks, size, overlap)
    ensures 0 <= pos < |t|
    ensures var piece := Strip(t[pos..Min(|t|, pos + size)]);
            var chunks' := if piece == [] then chunks else chunks + [piece];
            if pos + size >= |t| then chunks' == Chunks(t, size, overlap)
            else AtWindow(t, k + 1, pos + size - overlap, chunks', size, overlap)
  {
    hide Strip;
    WindowCountChar(|t|, k, size, overlap);
    WindowCountChar(|t|, k + 1, size, overlap);
  }

  lemma FirstRound(t: string, size: int, overlap: int)
    requires 0 <= overlap < size
    ensures if |t| == 0 then Chunks(t, size, overlap) == [] else AtWindow(t, 0, 0, [], size, overlap)
  {
  }

  /** The loop meets the closed form: each step moves by exactly size - overlap, so the max with pos + 1 never
      decides. */
  method CutWindows(t: string, size: int, overlap: int) returns (chunks: seq<string>)
    requires 0 <= overlap < size
    ensures chunks == Chunks(t, size, overlap)
  {
    hide AtWindow, Chunks, Strip, WindowCount;
    FirstRound(t, size, overlap);
    chunks := [];
    var pos := 0;
    ghost var k: nat := 0;
    while pos < |t|
      invariant if |t| == 0 then chunks == Chunks(t, size, overlap) else AtWindow(t, k, pos, chunks, size, overlap)
      invariant |t| > 0 ==> 0 <= pos < |t|
      decreases |t| - pos
    {
      WindowRound(t, k, pos, chunks, size, overlap);
      var end := Min(|t|, pos + size);
      var chunk := Strip(t[pos..end]);
      if chunk != [] {
        chunks := chunks + [chunk];
      }
      if end >= |t| {
        return;
      }
      pos := Max(pos + 1, end - overlap);
      k := k + 1;
      WindowRound(t, k, pos, chunks, size, overlap);
    }
  }

  method ChunkText(text: string, sizeEnv: int, overlapEnv: int) returns (chunks: seq<string>)
    ensures var size := ChunkSize(sizeEnv);
            chunks == Chunks(NormalizeText(text), size, ChunkOverlap(overlapEnv, size))
  {
    var size := ChunkSize(sizeEnv);
    chunks := CutWindows(NormalizeText(text), size, ChunkOverlap(overlapEnv, size));
  }

  // ----- what the chunks are -----

  predicate SliceAt(c: string, t: string, a: nat) {
    a + |c| <= |t| && t[a..a + |c|] == c
  }

  ghost predicate IsSlice(c: string, t: string) {
    exists a: nat :: SliceAt(c, t, a)
  }

  lemma SliceOfSlice(c: string, s: string, t: string, a: nat, b: nat, x: nat, y: nat)
    requires a <= b <= |t| && s == t[a..b] && x <= y <= |s| && c == s[x..y]
    ensures SliceAt(c, t, a + x)
  {
    assert forall i :: 0 <= i < |c| ==> c[i] == s[x + i] == t[a + x + i];
  }

  lemma PieceIsChunk(t: string, i: nat, size: int, overlap: int)
    requires 0 <= overlap < size && i < WindowCount(|t|, size, overlap)
    ensures var c := Strip(Window(t, i, size, overlap)); |c| <= size && Trimmed(c) && IsSlice(c, t)
  {
    hide Strip, Trimmed, WindowCount, IsSpace;
    WindowCountChar(|t|, i, size, overlap);
    var w := Window(t, i, size, overlap);
    var x, y := StripSlice(w);
    SliceOfSlice(Strip(w), w, t, WindowStart(i, size, overlap), WindowEnd(|t|, i, size, overlap), x, y);
  }

  lemma {:induction false} PiecesAreChunks(t: string, n: nat, size: int, overlap: int)
    requires 0 <= overlap < size && n <= WindowCount(|t|, size, overlap)
    ensures forall c :: c in Pieces(t, n, size, overlap) ==> 0 < |c| <= size && Trimmed(c) && IsSlice(c, t)
  {
    hide Strip, Trimmed, WindowCount, Window, IsSlice;
    if n > 0 {
      PiecesAreChunks(t, n - 1, size, overlap);
      PieceIsChunk(t, n - 1, size, overlap);
    }
  }

  /** Every chunk is a nonempty, trimmed slice of the normalised text and no longer than the chunk size. */
  lemma ChunkBounds(t: string, size: int, overlap: int, c: string)
    requires 0 <= overlap < size && c in Chunks(t, size, overlap)
    ensures 0 < |c| <= size && Trimmed(c) && IsSlice(c, t)
  {
    PiecesAreChunks(t, WindowCount(|t|, size, overlap), size, overlap);
  }

  lemma PiecesGrow(t: string, n: nat, size: int, overlap: int)
    requires 0 <= overlap < size && 0 < n <= WindowCount(|t|, size, overlap)
    ensures Pieces(t, n - 1, size, overlap) <= Pieces(t, n, size, overlap)
    ensures var piece := Strip(Window(t, n - 1, size, overlap));
            piece != [] ==> piece in Pieces(t, n, size, overlap)
  {
  }

  lemma {:induction false} PieceOfWindow(t: string, n: nat, i: nat, piece: string, size: int, overlap: int)
    requires 0 <= overlap < size && i < n <= WindowCount(|t|, size, overlap)
    requires piece == Strip(Window(t, i, size, overlap)) && piece != []
    ensures piece in Pieces(t, n, size, overlap)
    decreases n
  {
    hide Pieces, Strip, WindowCount, Window;
    PiecesGrow(t, n, size, overlap);
    if i < n - 1 {
      PieceOfWindow(t, n - 1, i, piece, size, overlap);
    }
  }

  /** The window that holds position p. */
  lemma {:induction false} WindowHolding(length: nat, p: nat, size: int, overlap: int) returns (i: nat)
    requires 0 <= overlap < size && p < length
    ensures i < WindowCount(length, size, overlap)
    ensures WindowStart(i, size, overlap) <= p < WindowEnd(length, i, size, overlap)
    decreases p
  {
    if p < size {
      i := 0;
    } else {
      var step := size - overlap;
      i := WindowHolding(length - step, p - step, size, overlap);
      i := i + 1;
    }
  }

  /** A window's visible characters keep their places in the window's piece. */
  lemma PieceCovers(t: string, i: nat, p: nat, size: int, overlap: int) returns (a: nat, b: nat)
    requires 0 <= overlap < size && i < WindowCount(|t|, size, overlap) && p < |t| && !IsSpace(t[p])
    requires WindowStart(i, size, overlap) <= p < WindowEnd(|t|, i, size, overlap)
    ensures a <= p < b <= |t| && t[a..b] == Strip(Window(t, i, size, overlap))
  {
    var s, e := WindowStart(i, size, overlap), WindowEnd(|t|, i, size, overlap);
    WindowCountChar(|t|, i, size, overlap);
    var w := t[s..e];
    assert w[p - s] == t[p];
    var x, y := StripSlice(w);
    SliceOfSlice(Strip(w), w, t, s, e, x, y);
    a, b := s + x, s + y;
  }

  /** No visible character is lost: each lies inside some chunk, at its own place in the text. */
  lemma VisibleCharactersAreCovered(t: string, p: nat, size: int, overlap: int) returns (a: nat, b: nat)
    requires 0 <= overlap < size && p < |t| && !IsSpace(t[p])
    ensures a <= p < b <= |t| && t[a..b] in Chunks(t, size, overlap)
  {
    var i := WindowHolding(|t|, p, size, overlap);
    a, b := PieceCovers(t, i, p, size, overlap);
    assert t[a..b] != [];
    PieceOfWindow(t, WindowCount(|t|, size, overlap), i, t[a..b], size, overlap);
  }

  /** The first window, then each later window without its overlap. */
  function Rejoin(t: string, n: nat, size: int, overlap: int): string
    requires 0 <= overlap < size && 0 < n <= WindowCount(|t|, size, overlap)
  {
    if n == 1 then Window(t, 0, size, overlap)
    else
      var w := Window(t, n - 1, size, overlap);
      Rejoin(t, n - 1, size, overlap) + if overlap <= |w| then w[overlap..] else []
  }

  lemma WindowIs(t: string, i: nat, size: int, overlap: int)
    requires 0 <= overlap < size && i < WindowCount(|t|, size, overlap)
    ensures var s, e := WindowStart(i, size, overlap), WindowEnd(|t|, i, size, overlap);
            0 <= s <= e <= |t| && Window(t, i, size, overlap) == t[s..e]
  {
    WindowCountChar(|t|, i, size, overlap);
  }

  lemma SlicesJoin(t: string, s: int, m: int, e: int)
    requires 0 <= s <= m <= e <= |t|
    ensures t[..m] + t[s..e][m - s..] == t[..e]
  {
  }

  /** What window i adds to the text up to the end of the window before it. */
  lemma NextWindowJoins(t: string, i: nat, size: int, overlap: int)
    requires 0 <= overlap < size && 0 < i < WindowCount(|t|, size, overlap)
    ensures var w := Window(t, i, size, overlap);
            var before, end := WindowEnd(|t|, i - 1, size, overlap), WindowEnd(|t|, i, size, overlap);
            0 <= before <= end <= |t| && overlap <= |w| && t[..before] + w[overlap..] == t[..end]
  {
    hide WindowCount, Window;
    WindowIs(t, i, size, overlap);
    WindowCountChar(|t|, i, size, overlap);
    var s := WindowStart(i, size, overlap);
    assert s == WindowStart(i - 1, size, overlap) + (size - overlap);
    SlicesJoin(t, s, s + overlap, WindowEnd(|t|, i, size, overlap));
  }

  lemma {:induction false} RejoinPrefix(t: string, n: nat, size: int, overlap: int)
    requires 0 <= overlap < size && 0 < n <= WindowCount(|t|, size, overlap)
    ensures 0 <= WindowEnd(|t|, n - 1, size, overlap) <= |t|
    ensures Rejoin(t, n, size, overlap) == t[..WindowEnd(|t|, n - 1, size, overlap)]
  {
    hide WindowCount, Window;
    if n > 1 {
      RejoinPrefix(t, n - 1, size, overlap);
      NextWindowJoins(t, n - 1, size, overlap);
    } else {
      WindowCountChar(|t|, 0, size, overlap);
      assert Window(t, 0, size, overlap) == t[..WindowEnd(|t|, 0, size, overlap)] by {
        WindowIs(t, 0, size, overlap);
      }
    }
  }

  /** Dropping the overlaps, the windows spell the text: nothing is skipped and nothing reordered. */
  lemma WindowsRejoin(t: string, size: int, overlap: int)
    requires 0 <= overlap < size && |t| > 0
    ensures Rejoin(t, WindowCount(|t|, size, overlap), size, overlap) == t
  {
    var n := WindowCount(|t|, size, overlap);
    RejoinPrefix(t, n, size, overlap);
    WindowCountChar(|t|, n, size, overlap);
    WindowCountChar(|t|, n - 1, size, overlap);
    assert WindowEnd(|t|, n - 1, size, overlap) == |t|;
    assert t[..|t|] == t;
  }

  /** A text that is not blank yields at least one chunk, so the "no chunks" error after parsing is never raised. */
  lemma NormalTextHasChunks(text: string, size: int, overlap: int)
    requires 0 <= overlap < size && NormalizeText(text) != []
    ensures Chunks(NormalizeText(text), size, overlap) != []
  {
    NormalizeIsCanonical(text);
    var t := NormalizeText(text);
    var a, b := VisibleCharactersAreCovered(t, 0, size, overlap);
  }

  /** The windows, written out: window i starts at i * (size - overlap) and is size characters long, or as many as are
      left. */
  lemma WindowMeans(t: string, i: nat, size: int, overlap: int)
    requires 0 <= overlap < size && i < WindowCount(|t|, size, overlap)
    ensures 0 <= i * (size - overlap) < |t|
    ensures Window(t, i, size, overlap) == t[i * (size - overlap)..Min(|t|, i * (size - overlap) + size)]
  {
    WindowStartIsProduct(i, size, overlap);
    WindowCountChar(|t|, i, size, overlap);
    WindowIs(t, i, size, overlap);
  }

  /** The first n windows. */
  function Windows(t: string, n: nat, size: int, overlap: int): (ws: seq<string>)
    requires 0 <= overlap < size && n <= WindowCount(|t|, size, overlap)
    ensures |ws| == n && forall i :: 0 <= i < n ==> ws[i] == Window(t, i, size, overlap)
  {
    if n == 0 then [] else Windows(t, n - 1, size, overlap) + [Window(t, n - 1, size, overlap)]
  }

  /** Chunk k is the stripped window which[k]; the windows are taken in order, and exactly the blank ones are left
      out. */
  ghost predicate TakenFrom(ws: seq<string>, chunks: seq<string>, which: seq<nat>) {
    && |which| == |chunks|
    && (forall k :: 0 <= k < |which| ==> which[k] < |ws| && chunks[k] == Strip(ws[which[k]]))
    && (forall j, k :: 0 <= j < k < |which| ==> which[j] < which[k])
    && (forall i: nat :: i < |ws| ==> (i in which <==> !AllSpace(ws[i])))
  }

  lemma TakenMore(ws: seq<string>, w: string, chunks: seq<string>, which: seq<nat>)
    requires TakenFrom(ws, chunks, which)
    ensures if Strip(w) == [] then TakenFrom(ws + [w], chunks, which)
            else TakenFrom(ws + [w], chunks + [Strip(w)], which + [|ws|])
  {
    StripEnds(w);
    hide Strip, AllSpace;
    var more := which + [|ws|];
    assert more[|which|] == |ws| && |ws| in more && |ws| !in which;
    assert forall i: nat :: i < |ws| ==> (i in more <==> i in which);
  }

  lemma {:induction false} PiecesTaken(t: string, n: nat, size: int, overlap: int) returns (which: seq<nat>)
    requires 0 <= overlap < size && n <= WindowCount(|t|, size, overlap)
    ensures TakenFrom(Windows(t, n, size, overlap), Pieces(t, n, size, overlap), which)
  {
    hide Strip, WindowCount, Window, TakenFrom;
    if n == 0 {
      which := [];
      NothingTaken();
      assert Windows(t, 0, size, overlap) == [];
    } else {
      which := PiecesTaken(t, n - 1, size, overlap);
      TakenMore(Windows(t, n - 1, size, overlap), Window(t, n - 1, size, overlap), Pieces(t, n - 1, size, overlap),
                which);
      if Strip(Window(t, n - 1, size, overlap)) != [] {
        which := which + [n - 1];
      } else {
        assert Pieces(t, n, size, overlap) == Pieces(t, n - 1, size, overlap);
      }
      assert Windows(t, n, size, overlap) == Windows(t, n - 1, size, overlap) + [Window(t, n - 1, size, overlap)];
    }
  }

  lemma NothingTaken()
    ensures TakenFrom([], [], [])
  {
  }

  /** The chunks of a text are its windows without outer whitespace: all that show something, once each and in order. */
  lemma ChunksAreWindows(t: string, size: int, overlap: int) returns (which: seq<nat>)
    requires 0 <= overlap < size
    ensures TakenFrom(Windows(t, WindowCount(|t|, size, overlap), size, overlap), Chunks(t, size, overlap), which)
  {
    which := PiecesTaken(t, WindowCount(|t|, size, overlap), size, overlap);
  }

  // ----- metadata -----

  datatype Meta = Meta(chunkInSource: nat, pageNo: Option<int>)

  datatype UploadError = NoText | NoPages | NoChunks

  datatype Parsed = Parsed(text: string, chunks: seq<string>, metas: seq<Meta>)

  function MetasFor(n: nat, pageNo: Option<int>): seq<Meta> {
    seq(n, i requires 0 <= i < n => Meta(i, pageNo))
  }

  method ChunkTextWithMetadata(text: string, pageNo: Option<int>, sizeEnv: int, overlapEnv: int)
    returns (chunks: seq<string>, metas: seq<Meta>)
    ensures var size := ChunkSize(sizeEnv);
            chunks == Chunks(NormalizeText(text), size, ChunkOverlap(overlapEnv, size))
    ensures metas == MetasFor(|chunks|, pageNo)
    ensures |metas| == |chunks|
    ensures forall i :: 0 <= i < |metas| ==> metas[i].chunkInSource == i && metas[i].pageNo == pageNo
  {
    hide Chunks, NormalizeText, ChunkSize, ChunkOverlap;
    chunks := ChunkText(text, sizeEnv, overlapEnv);
    metas := [];
    for i := 0 to |chunks|
      invariant metas == MetasFor(i, pageNo)
    {
      metas := metas + [Meta(i, pageNo)];
    }
  }

  /** Every kind of file except PDF: the parsed text is normalised, too short a text refused, the rest chunked.
      The chunker normalises once more, which changes nothing, so the chunks are those of the returned text. */
  method ParseAndChunk(text: string, sizeEnv: int, overlapEnv: int) returns (r: Result<Parsed, UploadError>)
    ensures r.Ok? <==> |NormalizeText(text)| >= 10
    ensures r.Err? ==> r.error == NoText
    ensures r.Ok? ==>
              var size := ChunkSize(sizeEnv);
              && r.value.text == NormalizeText(text)
              && r.value.chunks == Chunks(r.value.text, size, ChunkOverlap(overlapEnv, size))
              && r.value.chunks != []
              && r.value.metas == MetasFor(|r.value.chunks|, None)
  {
    var normalized := NormalizeText(text);
    if |normalized| < 10 {
      return Err(NoText);
    }
    var chunks, metas := ChunkTextWithMetadata(normalized, None, sizeEnv, overlapEnv);
    NormalizeIdempotent(text);
    var size := ChunkSize(sizeEnv);
    NormalTextHasChunks(text, size, ChunkOverlap(overlapEnv, size));
    if chunks == [] {
      return Err(NoChunks);
    }
    return Ok(Parsed(normalized, chunks, metas));
  }

  // ----- PDF: one run of the chunker per page -----

  datatype Page = Page(no: int, text: string)

  /** The page texts, each stripped and normalised. */
  function PageTexts(raw: seq<string>): seq<string> {
    seq(|raw|, i requires 0 <= i < |raw| => NormalizeText(Strip(raw[i])))
  }

  /** The pages with visible text among the first n, numbered from 1. */
  function PagesOf(texts: seq<string>, n: nat): seq<Page>
    requires n <= |texts|
  {
    if n == 0 then []
    else PagesOf(texts, n - 1) + if texts[n - 1] == [] then [] else [Page(n, texts[n - 1])]
  }

  function PdfPages(raw: seq<string>): seq<Page> {
    PagesOf(PageTexts(raw), |raw|)
  }

  function PageHead(no: int): string {
    "[第 " + Decimal.PrintInt(no) + " 页]\n"
  }

  function PageMark(page: Page): string {
    PageHead(page.no) + page.text
  }

  /** "\n\n".join over the page parts. */
  function JoinPages(pages: seq<Page>): string {
    if |pages| == 0 then []
    else if |pages| == 1 then PageMark(pages[0])
    else JoinPages(pages[..|pages| - 1]) + "\n\n" + PageMark(pages[|pages| - 1])
  }

  function PageChunks(pages: seq<Page>, size: int, overlap: int): seq<string>
    requires 0 <= overlap < size
  {
    if |pages| == 0 then []
    else PageChunks(pages[..|pages| - 1], size, overlap) + Chunks(pages[|pages| - 1].text, size, overlap)
  }

  function PageMetas(pages: seq<Page>, size: int, overlap: int): seq<Meta>
    requires 0 <= overlap < size
  {
    if |pages| == 0 then []
    else
      var last := pages[|pages| - 1];
      PageMetas(pages[..|pages| - 1], size, overlap) + MetasFor(|Chunks(last.text, size, overlap)|, Some(last.no))
  }

  /** Metadata j belongs to chunk j: it names a page of the document and the place of the chunk among that page's. */
  predicate MetasMatch(pages: seq<Page>, chunks: seq<string>, metas: seq<Meta>, size: int, overlap: int)
    requires 0 <= overlap < size
  {
    && |metas| == |chunks|
    && forall j :: 0 <= j < |metas| ==> MetaMatches(pages, chunks[j], metas[j], size, overlap)
  }

  predicate MetaMatches(pages: seq<Page>, chunk: string, meta: Meta, size: int, overlap: int)
    requires 0 <= overlap < size
  {
    exists p :: 0 <= p < |pages| && meta.pageNo == Some(pages[p].no) &&
                var own := Chunks(pages[p].text, size, overlap);
                meta.chunkInSource < |own| && own[meta.chunkInSource] == chunk
  }

  lemma MetaMatchesMore(pages: seq<Page>, chunk: string, meta: Meta, last: Page, size: int, overlap: int)
    requires 0 <= overlap < size && MetaMatches(pages, chunk, meta, size, overlap)
    ensures MetaMatches(pages + [last], chunk, meta, size, overlap)
  {
    var p :| 0 <= p < |pages| && meta.pageNo == Some(pages[p].no) &&
             var own := Chunks(pages[p].text, size, overlap);
             meta.chunkInSource < |own| && own[meta.chunkInSource] == chunk;
    assert (pages + [last])[p] == pages[p];
  }

  lemma MetasMatchMore(pages: seq<Page>, chunks: seq<string>, metas: seq<Meta>, last: Page, size: int, overlap: int)
    requires 0 <= overlap < size && MetasMatch(pages, chunks, metas, size, overlap)
    ensures var own := Chunks(last.text, size, overlap);
            MetasMatch(pages + [last], chunks + own, metas + MetasFor(|own|, Some(last.no)), size, overlap)
  {
    var own := Chunks(last.text, size, overlap);
    var all := metas + MetasFor(|own|, Some(last.no));
    forall j | 0 <= j < |all| ensures MetaMatches(pages + [last], (chunks + own)[j], all[j], size, overlap) {
      if j < |metas| {
        MetaMatchesMore(pages, chunks[j], metas[j], last, size, overlap);
      } else {
        assert (pages + [last])[|pages|] == last;
      }
    }
  }

  lemma {:induction false} PageOfTexts(texts: seq<string>, n: nat, page: Page)
    requires n <= |texts| && page in PagesOf(texts, n)
    ensures 1 <= page.no <= n && page.text == texts[page.no - 1] && page.text != []
  {
    if page in PagesOf(texts, n - 1) {
      PageOfTexts(texts, n - 1, page);
    }
  }

  /** Every sheet with visible text is a page, once and in order. */
  lemma {:induction false} AllPages(texts: seq<string>, n: nat)
    requires n <= |texts|
    ensures var pages := PagesOf(texts, n);
            && (forall j, k :: 0 <= j < k < |pages| ==> pages[j].no < pages[k].no)
            && (forall i :: 0 <= i < n && texts[i] != [] ==> Page(i + 1, texts[i]) in pages)
  {
    if n > 0 {
      AllPages(texts, n - 1);
      forall page | page in PagesOf(texts, n - 1) ensures page.no < n {
        PageOfTexts(texts, n - 1, page);
      }
    }
  }

  /** The pages of a PDF are exactly its sheets whose text is not blank, in order. */
  lemma PagesMean(raw: seq<string>)
    ensures var pages := PdfPages(raw);
            && (forall j, k :: 0 <= j < k < |pages| ==> pages[j].no < pages[k].no)
            && (forall i :: 0 <= i < |raw| && NormalizeText(Strip(raw[i])) != [] ==>
                  Page(i + 1, NormalizeText(Strip(raw[i]))) in pages)
            && (forall page :: page in pages ==>
                  1 <= page.no <= |raw| && page.text == NormalizeText(Strip(raw[page.no - 1])) != [])
  {
    hide NormalizeText, Strip;
    var texts := PageTexts(raw);
    AllPages(texts, |raw|);
    forall i | 0 <= i < |raw| && NormalizeText(Strip(raw[i])) != []
      ensures Page(i + 1, NormalizeText(Strip(raw[i]))) in PdfPages(raw)
    {
      assert texts[i] == NormalizeText(Strip(raw[i]));
    }
    forall page | page in PdfPages(raw)
      ensures 1 <= page.no <= |raw| && page.text == NormalizeText(Strip(raw[page.no - 1])) != []
    {
      PageOfTexts(PageTexts(raw), |raw|, page);
    }
  }

  /** Up to page k, the stored text is what the pages before it give, two line breaks, the page's number in its mark,
      and its text; what follows comes behind. */
  lemma JoinedUpTo(pages: seq<Page>, k: nat)
    requires k < |pages|
    ensures JoinPages(pages[..k + 1]) <= JoinPages(pages)
    ensures JoinPages(pages[..k + 1]) ==
            (if k == 0 then [] else JoinPages(pages[..k]) + "\n\n") +
            ("[第 " + Decimal.PrintInt(pages[k].no) + " 页]\n" + pages[k].text)
  {
    JoinGrows(pages, k);
    var head := pages[..k + 1];
    assert head[..k] == pages[..k] && head[k] == pages[k];
    hide JoinPages;
    LastPart(head);
  }

  lemma LastPart(pages: seq<Page>)
    requires |pages| > 0
    ensures var front, last := pages[..|pages| - 1], pages[|pages| - 1];
            JoinPages(pages) == (if |pages| == 1 then [] else JoinPages(front) + "\n\n") +
                                ("[第 " + Decimal.PrintInt(last.no) + " 页]\n" + last.text)
  {
    hide Decimal.PrintInt;
    var last := pages[|pages| - 1];
    assert PageMark(last) == "[第 " + Decimal.PrintInt(last.no) + " 页]\n" + last.text;
    hide PageMark;
    assert [] + PageMark(last) == PageMark(last);
  }

  lemma {:induction false} JoinGrows(pages: seq<Page>, k: nat)
    requires k < |pages|
    ensures JoinPages(pages[..k + 1]) <= JoinPages(pages)
    decreases |pages|
  {
    hide PageMark;
    if k + 1 == |pages| {
      assert pages[..k + 1] == pages;
    } else {
      var front := pages[..|pages| - 1];
      JoinGrows(front, k);
      assert front[..k + 1] == pages[..k + 1];
    }
  }

  /** A page carries the normalised text of the sheet its number names, so the chunker's own pass changes nothing. */
  lemma PageIsNormal(raw: seq<string>, page: Page)
    requires page in PdfPages(raw)
    ensures 1 <= page.no <= |raw| && page.text == NormalizeText(Strip(raw[page.no - 1]))
    ensures page.text != [] && NormalizeText(page.text) == page.text
  {
    hide NormalizeText, Strip, PagesOf;
    PageOfTexts(PageTexts(raw), |raw|, page);
    NormalizeIdempotent(Strip(raw[page.no - 1]));
  }

  /** One page more: its part of the text, its chunks and its metadata come behind those before. */
  method AddPage(page: Page, ghost before: seq<Page>, parsed: Parsed, sizeEnv: int, overlapEnv: int)
    returns (r: Parsed)
    requires NormalizeText(page.text) == page.text
    requires var size := ChunkSize(sizeEnv);
             HoldsPages(before, parsed, size, ChunkOverlap(overlapEnv, size))
    requires parsed.text == [] <==> before == []
    ensures var size := ChunkSize(sizeEnv);
            HoldsPages(before + [page], r, size, ChunkOverlap(overlapEnv, size))
    ensures r.text != []
  {
    ghost var size := ChunkSize(sizeEnv);
    ghost var overlap := ChunkOverlap(overlapEnv, size);
    var cs, ms := ChunkTextWithMetadata(page.text, Some(page.no), sizeEnv, overlapEnv);
    MetasMatchMore(before, parsed.chunks, parsed.metas, page, size, overlap);
    ghost var pages := before + [page];
    assert pages[..|pages| - 1] == before;
    var text := if parsed.text == [] then PageMark(page) else parsed.text + "\n\n" + PageMark(page);
    r := Parsed(text, parsed.chunks + cs, parsed.metas + ms);
  }

  /** One page has its own chunks, numbered from 0 under its number. */
  lemma OnePage(page: Page, size: int, overlap: int)
    requires 0 <= overlap < size
    ensures PageChunks([page], size, overlap) == Chunks(page.text, size, overlap)
    ensures var metas := PageMetas([page], size, overlap);
            && |metas| == |Chunks(page.text, size, overlap)|
            && forall i :: 0 <= i < |metas| ==> metas[i].chunkInSource == i && metas[i].pageNo == Some(page.no)
  {
    hide Chunks;
    assert [page][..0] == [];
    assert PageChunks([], size, overlap) == [] && PageMetas([], size, overlap) == [];
  }

  /** The chunks of a PDF are its pages' chunks one page after the other. */
  lemma {:induction false} PageChunksJoin(pages: seq<Page>, more: seq<Page>, size: int, overlap: int)
    requires 0 <= overlap < size
    ensures PageChunks(pages + more, size, overlap) ==
            PageChunks(pages, size, overlap) + PageChunks(more, size, overlap)
  {
    hide Chunks;
    if |more| == 0 {
      assert pages + more == pages;
    } else {
      PageChunksJoin(pages, more[..|more| - 1], size, overlap);
      assert (pages + more)[..|pages + more| - 1] == pages + more[..|more| - 1];
    }
  }

  /** So is their metadata. */
  lemma {:induction false} PageMetasJoin(pages: seq<Page>, more: seq<Page>, size: int, overlap: int)
    requires 0 <= overlap < size
    ensures PageMetas(pages + more, size, overlap) ==
            PageMetas(pages, size, overlap) + PageMetas(more, size, overlap)
  {
    hide Chunks, MetasFor;
    if |more| == 0 {
      assert pages + more == pages;
    } else {
      PageMetasJoin(pages, more[..|more| - 1], size, overlap);
      assert (pages + more)[..|pages + more| - 1] == pages + more[..|more| - 1];
    }
  }

  predicate HoldsPages(pages: seq<Page>, parsed: Parsed, size: int, overlap: int)
    requires 0 <= overlap < size
  {
    && parsed.text == JoinPages(pages)
    && parsed.chunks == PageChunks(pages, size, overlap) && parsed.metas == PageMetas(pages, size, overlap)
    && MetasMatch(pages, parsed.chunks, parsed.metas, size, overlap)
  }

  method ParsePdfPages(raw: seq<string>) returns (pages: seq<Page>)
    ensures pages == PdfPages(raw)
  {
    hide NormalizeText, Strip;
    pages := [];
    for i := 0 to |raw|
      invariant pages == PagesOf(PageTexts(raw), i)
    {
      var text := NormalizeText(Strip(raw[i]));
      if text != [] {
        pages := pages + [Page(i + 1, text)];
      }
    }
  }

  method ParseAndChunkPdf(raw: seq<string>, sizeEnv: int, overlapEnv: int) returns (r: Result<Parsed, UploadError>)
    ensures r.Err? <==> PdfPages(raw) == []
    ensures r.Err? ==> r.error == NoPages
    ensures r.Ok? ==>
              var size := ChunkSize(sizeEnv);
              HoldsPages(PdfPages(raw), r.value, size, ChunkOverlap(overlapEnv, size))
  {
    hide NormalizeText, Strip, PageTexts, Chunks, ChunkSize, ChunkOverlap;
    var pages := ParsePdfPages(raw);
    if pages == [] {
      return Err(NoPages);
    }
    var parsed := Parsed([], [], []);
    ghost var size := ChunkSize(sizeEnv);
    for i := 0 to |pages|
      invariant HoldsPages(pages[..i], parsed, size, ChunkOverlap(overlapEnv, size))
      invariant parsed.text == [] <==> i == 0
    {
      assert pages[..i + 1] == pages[..i] + [pages[i]];
      PageIsNormal(raw, pages[i]);
      parsed := AddPage(pages[i], pages[..i], parsed, sizeEnv, overlapEnv);
    }
    assert pages[..|pages|] == pages;
    return Ok(parsed);
  }

  lemma SliceInside(c: string, x: string, y: string, z: string)
    requires IsSlice(c, y)
    ensures IsSlice(c, x + y + z)
  {
    var a: nat :| SliceAt(c, y, a);
    assert SliceAt(c, x + y + z, |x| + a) by {
      assert (x + y + z)[|x|..|x| + |y|] == y;
      SliceOfSlice(c, y, x + y + z, |x|, |x| + |y|, a, a + |c|);
    }
  }

  lemma SliceOfJoin(c: string, x: string, y: string)
    requires IsSlice(c, x) || IsSlice(c, y)
    ensures IsSlice(c, x + y)
  {
    if IsSlice(c, x) {
      SliceInside(c, [], x, y);
      assert [] + x + y == x + y;
    } else {
      SliceInside(c, x, y, []);
      assert x + y + [] == x + y;
    }
  }

  lemma LastPageIsSlice(pages: seq<Page>, c: string)
    requires |pages| > 0 && IsSlice(c, pages[|pages| - 1].text)
    ensures IsSlice(c, JoinPages(pages))
  {
    var last := pages[|pages| - 1];
    SliceOfJoin(c, PageHead(last.no), last.text);
    if |pages| > 1 {
      SliceOfJoin(c, JoinPages(pages[..|pages| - 1]) + "\n\n", PageMark(last));
    }
  }

  lemma FrontPagesAreSlice(pages: seq<Page>, c: string)
    requires |pages| > 1 && IsSlice(c, JoinPages(pages[..|pages| - 1]))
    ensures IsSlice(c, JoinPages(pages))
  {
    var front := JoinPages(pages[..|pages| - 1]);
    SliceOfJoin(c, front, "\n\n");
    SliceOfJoin(c, front + "\n\n", PageMark(pages[|pages| - 1]));
  }

  lemma PageChunksSplit(pages: seq<Page>, size: int, overlap: int, c: string)
    requires 0 <= overlap < size && c in PageChunks(pages, size, overlap)
    ensures |pages| > 0
    ensures c in PageChunks(pages[..|pages| - 1], size, overlap) || c in Chunks(pages[|pages| - 1].text, size, overlap)
    ensures |pages| == 1 ==> c in Chunks(pages[|pages| - 1].text, size, overlap)
  {
    assert |pages| == 1 ==> pages[..|pages| - 1] == [];
  }

  /** Every chunk of a PDF is a slice of the text stored with the document, page marks included. */
  lemma {:induction false} PdfChunksAreSlices(pages: seq<Page>, size: int, overlap: int, c: string)
    requires 0 <= overlap < size && c in PageChunks(pages, size, overlap)
    ensures IsSlice(c, JoinPages(pages))
    decreases |pages|
  {
    PageChunksSplit(pages, size, overlap, c);
    if c in Chunks(pages[|pages| - 1].text, size, overlap) {
      ChunkBounds(pages[|pages| - 1].text, size, overlap, c);
      LastPageIsSlice(pages, c);
    } else {
      PdfChunksAreSlices(pages[..|pages| - 1], size, overlap, c);
      FrontPagesAreSlice(pages, c);
    }
  }

  /** Two letters with n blank lines between them. */
  function Spread(n: nat): string {
    "a" + seq(2 * n, i => if i % 2 == 0 then ' ' else '\n') + "b"
  }

  lemma SpreadShape(n: nat)
    ensures var t := Spread(n);
            && |t| == 2 * n + 2 && t[0] == 'a' && t[|t| - 1] == 'b'
            && (forall i :: 0 < i < |t| - 1 ==> t[i] == if i % 2 == 1 then ' ' else '\n')
    ensures Canonical(Spread(n))
  {
    var blanks: string := seq(2 * n, i => if i % 2 == 0 then ' ' else '\n');
    assert forall i :: 0 < i < |Spread(n)| - 1 ==> Spread(n)[i] == blanks[i - 1];
  }

  /** Whatever the chunk size and the overlap, some canonical text has a window of nothing but whitespace. Such a window
      gives no chunk, so the number of windows is only an upper bound for the number of chunks. */
  lemma BlankWindow(size: int, overlap: int)
    requires 0 <= overlap < size
    ensures var t := Spread(size);
            Canonical(t) && |Chunks(t, size, overlap)| < WindowCount(|t|, size, overlap)
  {
    SpreadShape(size);
    var t := Spread(size);
    WindowCountChar(|t|, 1, size, overlap);
    BlankPiece(t, size, overlap);
    FewerPieces(t, 2, WindowCount(|t|, size, overlap), size, overlap);
    FewerPieces(t, 0, 1, size, overlap);
  }

  /** The second window lies between the two letters. */
  lemma BlankPiece(t: string, size: int, overlap: int)
    requires 0 <= overlap < size && |t| == 2 * size + 2 && forall i :: 0 < i < |t| - 1 ==> IsSpace(t[i])
    ensures WindowCount(|t|, size, overlap) > 1
    ensures Pieces(t, 2, size, overlap) == Pieces(t, 1, size, overlap)
  {
    WindowCountChar(|t|, 1, size, overlap);
    assert WindowStart(1, size, overlap) == size - overlap;
    var w := Window(t, 1, size, overlap);
    assert AllSpace(w);
    StripEnds(w);
  }

  lemma {:induction false} FewerPieces(t: string, m: nat, n: nat, size: int, overlap: int)
    requires 0 <= overlap < size && m <= n <= WindowCount(|t|, size, overlap)
    ensures |Pieces(t, n, size, overlap)| <= |Pieces(t, m, size, overlap)| + n - m
    decreases n
  {
    hide Strip, Window, WindowCount;
    if m < n {
      FewerPieces(t, m, n - 1, size, overlap);
    }
  }
}
