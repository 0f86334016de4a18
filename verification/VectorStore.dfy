/** The knowledge store over a vector engine: document rows and a chunk counter in the database, vectors in the engine.
    A user has one default collection, so a collection is named by its user here. */
module VectorStore {
  import opened Basics
  import opened Decimal

  datatype DocRow = DocRow(user: int, docId: string, filename: string, size: int, chunks: nat)

  type Embedding = seq<real>

  /** What the engine keeps of a chunk: its embedding, its text and its metadata. */
  datatype Vector = Vector(docId: string, index: nat, filename: string, text: string, page: Option<int>,
                           embedding: Embedding)

  /** `counts` holds the chunk_count of the collections that exist. */
  datatype State = State(counts: map<int, int>, rows: seq<DocRow>, vectors: map<(int, string), Vector>)

  /** An engine call that fails: a delete removes nothing, an upsert has written some of its vectors. */
  datatype Engine = Engine(deleteWorks: bool, upsertFails: Option<set<nat>>)

  datatype Upload = Upload(docId: string, filename: string, size: int, chunks: seq<string>, pages: seq<Option<int>>,
                           embeddings: seq<Embedding>)

  datatype StoreError = CountsDiffer | EngineFailed

  function VectorId(docId: string, i: nat): string {
    docId + ":" + Digits(i)
  }

  /** Also for document ids that hold colons: the last colon is the one before the number. */
  lemma VectorIdInjective(d: string, i: nat, d': string, j: nat)
    requires VectorId(d, i) == VectorId(d', j)
    ensures d == d' && i == j
  {
    var s := VectorId(d, i);
    DigitsAreDigits(i);
    DigitsAreDigits(j);
    assert s[|d|] == ':' && s[|d'|] == ':';
    assert forall k :: |d| < k < |s| ==> s[k] == Digits(i)[k - |d| - 1];
    assert forall k :: |d'| < k < |s| ==> s[k] == Digits(j)[k - |d'| - 1];
    assert s[..|d|] == d && s[..|d'|] == d';
    assert s[|d| + 1..] == Digits(i) && s[|d'| + 1..] == Digits(j);
    DigitsInjective(i, j);
  }

  predicate IsFor(r: DocRow, user: int, docId: string) {
    r.user == user && r.docId == docId
  }

  /** The row of a document, or none. */
  function Find(rows: seq<DocRow>, user: int, docId: string): Option<DocRow> {
    if |rows| == 0 then None
    else if IsFor(rows[|rows| - 1], user, docId) then Some(rows[|rows| - 1])
    else Find(rows[..|rows| - 1], user, docId)
  }

  function Without(rows: seq<DocRow>, user: int, docId: string): seq<DocRow> {
    if |rows| == 0 then []
    else
      var front, r := Without(rows[..|rows| - 1], user, docId), rows[|rows| - 1];
      if IsFor(r, user, docId) then front else front + [r]
  }

  function SumChunks(rows: seq<DocRow>, user: int): nat {
    if |rows| == 0 then 0
    else SumChunks(rows[..|rows| - 1], user) + if rows[|rows| - 1].user == user then rows[|rows| - 1].chunks else 0
  }

  function ChunksOf(rows: seq<DocRow>, user: int, docId: string): nat {
    var r := Find(rows, user, docId);
    if r.Some? then r.value.chunks else 0
  }

  ghost predicate OneRowPerDoc(rows: seq<DocRow>) {
    forall i, j :: 0 <= i < j < |rows| ==> !IsFor(rows[i], rows[j].user, rows[j].docId)
  }

  function WithoutVectors(vectors: map<(int, string), Vector>, user: int, docId: string): map<(int, string), Vector> {
    map k | k in vectors && !(k.0 == user && vectors[k].docId == docId) :: vectors[k]
  }

  function VectorOf(u: Upload, i: nat): Vector
    requires i < |u.chunks|
  {
    Vector(u.docId, i, u.filename, u.chunks[i], PageAt(u, i), EmbeddingAt(u, i))
  }

  /** Missing pages are filled up with none. */
  function PageAt(u: Upload, i: nat): Option<int> {
    if i < |u.pages| then u.pages[i] else None
  }

  /** The engine pairs texts and embeddings by place; the upload has checked that there are as many. */
  function EmbeddingAt(u: Upload, i: nat): Embedding {
    if i < |u.embeddings| then u.embeddings[i] else []
  }

  /** The first n vectors of an upload that are in the written set, over the old ones. */
  function Written(vectors: map<(int, string), Vector>, user: int, u: Upload, n: nat, failed: Option<set<nat>>):
    map<(int, string), Vector>
    requires n <= |u.chunks|
  {
    if n == 0 then vectors
    else
      var before := Written(vectors, user, u, n - 1, failed);
      if failed.Some? && n - 1 !in failed.value then before
      else before[(user, VectorId(u.docId, n - 1)) := VectorOf(u, n - 1)]
  }

  /** delete_document: without a collection nothing happens; an engine failure is passed over. */
  function Deleted(s: State, user: int, docId: string, engine: Engine): (State, bool) {
    if user !in s.counts then (s, false)
    else
      var row := Find(s.rows, user, docId);
      var vectors := if engine.deleteWorks then WithoutVectors(s.vectors, user, docId) else s.vectors;
      if row.None? then (s.(vectors := vectors), false)
      else
        var counts := s.counts[user := Max(0, s.counts[user] - row.value.chunks)];
        (State(counts, Without(s.rows, user, docId), vectors), true)
  }

  function WithCollection(s: State, user: int): State {
    if user in s.counts then s else s.(counts := s.counts[user := 0])
  }

  /** upsert_document. The session that writes the total loaded the collection before the old document was deleted in a
      session of its own. With `writesEqual` every assigned total reaches the table; without it, a total equal to the
      value loaded does not, because the mapper sends only attributes whose value changed. */
  function Upserted(s: State, user: int, u: Upload, engine: Engine, writesEqual: bool): (State, Option<StoreError>) {
    if |u.chunks| != |u.embeddings| then (s, Some(CountsDiffer))
    else
      var loaded := WithCollection(s, user);
      var cleared := Deleted(loaded, user, u.docId, engine).0;
      var stored := cleared.(vectors := Written(cleared.vectors, user, u, |u.chunks|, engine.upsertFails));
      if engine.upsertFails.Some? then (stored, Some(EngineFailed))
      else
        var rows := Without(stored.rows, user, u.docId) + [DocRow(user, u.docId, u.filename, u.size, |u.chunks|)];
        var total := SumChunks(rows, user);
        var counts := if writesEqual || total != loaded.counts[user] then stored.counts[user := total]
                      else stored.counts;
        (State(counts, rows, stored.vectors), None)
  }

  class KnowledgeStore {
    const writesEqual: bool
    var counts: map<int, int>
    var rows: seq<DocRow>
    var vectors: map<(int, string), Vector>

    ghost function Current(): State
      reads this
    {
      State(counts, rows, vectors)
    }

    constructor (writesEqual: bool)
      ensures this.writesEqual == writesEqual && Current() == State(map[], [], map[])
    {
      this.writesEqual := writesEqual;
      counts, rows, vectors := map[], [], map[];
    }

    method EnsureCollection(user: int)
      modifies this`counts
      ensures Current() == WithCollection(old(Current()), user)
    {
      if user !in counts {
        counts := counts[user := 0];
      }
    }

    method DeleteDocument(user: int, docId: string, engine: Engine) returns (existed: bool)
      requires OneRowPerDoc(rows)
      modifies this
      ensures (Current(), existed) == Deleted(old(Current()), user, docId, engine)
      ensures OneRowPerDoc(rows)
    {
      if user !in counts {
        return false;
      }
      WithoutRows(rows, user, docId);
      var kept, row := Split(rows, user, docId);
      if engine.deleteWorks {
        vectors := map k | k in vectors && !(k.0 == user && vectors[k].docId == docId) :: vectors[k];
      }
      if row.Some? {
        counts := counts[user := Max(0, counts[user] - row.value.chunks)];
        rows := kept;
      }
      return row.Some?;
    }

    /** The query for a document's row, and the other rows. */
    static method Split(rows: seq<DocRow>, user: int, docId: string) returns (kept: seq<DocRow>, row: Option<DocRow>)
      ensures kept == Without(rows, user, docId) && row == Find(rows, user, docId)
    {
      kept, row := [], None;
      for i := 0 to |rows|
        invariant kept == Without(rows[..i], user, docId) && row == Find(rows[..i], user, docId)
      {
        assert rows[..i + 1][..i] == rows[..i];
        if IsFor(rows[i], user, docId) {
          row := Some(rows[i]);
        } else {
          kept := kept + [rows[i]];
        }
      }
      assert rows[..|rows|] == rows;
    }

    method UpsertDocument(user: int, u: Upload, engine: Engine) returns (error: Option<StoreError>)
      requires OneRowPerDoc(rows)
      modifies this
      ensures (Current(), error) == Upserted(old(Current()), user, u, engine, writesEqual)
      ensures OneRowPerDoc(rows)
    {
      if |u.chunks| != |u.embeddings| {
        return Some(CountsDiffer);
      }
      EnsureCollection(user);
      var loaded := counts[user];
      var existed := DeleteDocument(user, u.docId, engine);
      WriteVectors(user, u, engine.upsertFails);
      if engine.upsertFails.Some? {
        return Some(EngineFailed);
      }
      RecordUpload(DocRow(user, u.docId, u.filename, u.size, |u.chunks|), loaded);
      return None;
    }

    /** The document's row, and the collection's new total over the value loaded before. */
    method RecordUpload(row: DocRow, loaded: int)
      requires OneRowPerDoc(rows)
      modifies this`rows, this`counts
      ensures rows == Without(old(rows), row.user, row.docId) + [row] && OneRowPerDoc(rows)
      ensures var total := SumChunks(rows, row.user);
              counts == if writesEqual || total != loaded then old(counts)[row.user := total] else old(counts)
    {
      WithoutRows(rows, row.user, row.docId);
      var others, previous := Split(rows, row.user, row.docId);
      rows := others + [row];
      var total := SumRows(rows, row.user);
      if writesEqual || total != loaded {
        counts := counts[row.user := total];
      }
    }

    /** The batch of vectors of an upload, and how much of it an engine that fails has taken. */
    method WriteVectors(user: int, u: Upload, failed: Option<set<nat>>)
      modifies this`vectors
      ensures vectors == Written(old(vectors), user, u, |u.chunks|, failed)
    {
      for i := 0 to |u.chunks|
        invariant vectors == Written(old(vectors), user, u, i, failed)
      {
        var page := if i < |u.pages| then u.pages[i] else None;
        var v := Vector(u.docId, i, u.filename, u.chunks[i], page, EmbeddingAt(u, i));
        if failed.None? || i in failed.value {
          vectors := vectors[(user, VectorId(u.docId, i)) := v];
        }
      }
    }

    static method SumRows(rows: seq<DocRow>, user: int) returns (n: nat)
      ensures n == SumChunks(rows, user)
    {
      n := 0;
      for i := 0 to |rows|
        invariant n == SumChunks(rows[..i], user)
      {
        assert rows[..i + 1][..i] == rows[..i];
        if rows[i].user == user {
          n := n + rows[i].chunks;
        }
      }
      assert rows[..|rows|] == rows;
    }
  }

  // ----- rows -----

  /** Without a document's row: the others, still one per document. */
  lemma {:induction false} WithoutRows(rows: seq<DocRow>, user: int, docId: string)
    requires OneRowPerDoc(rows)
    ensures OneRowPerDoc(Without(rows, user, docId))
    ensures forall r :: r in Without(rows, user, docId) <==> r in rows && !IsFor(r, user, docId)
  {
    if |rows| > 0 {
      var front, last := rows[..|rows| - 1], rows[|rows| - 1];
      assert rows == front + [last];
      FrontIsApart(rows);
      WithoutRows(front, user, docId);
      var kept := Without(front, user, docId);
      if !IsFor(last, user, docId) {
        forall i | 0 <= i < |kept| ensures !IsFor(kept[i], last.user, last.docId) {
          assert kept[i] in front;
        }
      }
    }
  }

  lemma FrontIsApart(rows: seq<DocRow>)
    requires OneRowPerDoc(rows) && |rows| > 0
    ensures var front, last := rows[..|rows| - 1], rows[|rows| - 1];
            OneRowPerDoc(front) && forall r :: r in front ==> !IsFor(r, last.user, last.docId)
  {
    var front, last := rows[..|rows| - 1], rows[|rows| - 1];
    forall i | 0 <= i < |front| ensures !IsFor(front[i], last.user, last.docId) {
      assert !IsFor(rows[i], rows[|front|].user, rows[|front|].docId);
    }
    forall i, j | 0 <= i < j < |front| ensures !IsFor(front[i], front[j].user, front[j].docId) {
      assert !IsFor(rows[i], rows[j].user, rows[j].docId);
    }
  }

  lemma {:induction false} WithoutAbsent(rows: seq<DocRow>, user: int, docId: string)
    requires Find(rows, user, docId).None?
    ensures Without(rows, user, docId) == rows
  {
    if |rows| > 0 {
      WithoutAbsent(rows[..|rows| - 1], user, docId);
    }
  }

  lemma SumSnoc(rows: seq<DocRow>, row: DocRow, u: int)
    ensures SumChunks(rows + [row], u) == SumChunks(rows, u) + if row.user == u then row.chunks else 0
  {
    assert (rows + [row])[..|rows|] == rows;
  }

  lemma {:induction false} SumWithout(rows: seq<DocRow>, user: int, docId: string, u: int)
    requires OneRowPerDoc(rows)
    ensures SumChunks(Without(rows, user, docId), u) ==
            SumChunks(rows, u) - if u == user then ChunksOf(rows, user, docId) else 0
  {
    if |rows| > 0 {
      var front, last := rows[..|rows| - 1], rows[|rows| - 1];
      assert OneRowPerDoc(front) && (IsFor(last, user, docId) ==> ChunksOf(front, user, docId) == 0) by {
        FrontIsApart(rows);
        FindMeans(front, user, docId);
      }
      SumWithout(front, user, docId, u);
      assert ChunksOf(rows, user, docId) == if IsFor(last, user, docId) then last.chunks
                                            else ChunksOf(front, user, docId);
      if !IsFor(last, user, docId) {
        SumSnoc(Without(front, user, docId), last, u);
      }
    }
  }

  lemma {:induction false} FindMeans(rows: seq<DocRow>, user: int, docId: string)
    ensures var r := Find(rows, user, docId);
            if r.None? then forall x :: x in rows ==> !IsFor(x, user, docId)
            else r.value in rows && IsFor(r.value, user, docId)
  {
    if |rows| > 0 {
      FindMeans(rows[..|rows| - 1], user, docId);
    }
  }

  // ----- the counter -----

  /** Every collection's counter is the sum over its document rows, and only existing collections have rows. */
  ghost predicate Counted(s: State) {
    && OneRowPerDoc(s.rows)
    && (forall u :: u in s.counts ==> s.counts[u] == SumChunks(s.rows, u))
    && (forall r :: r in s.rows ==> r.user in s.counts)
  }

  lemma {:induction false} NoRowsNoChunks(rows: seq<DocRow>, user: int)
    requires forall r :: r in rows ==> r.user != user
    ensures SumChunks(rows, user) == 0
  {
    if |rows| > 0 {
      NoRowsNoChunks(rows[..|rows| - 1], user);
    }
  }

  lemma {:induction false} SumCoversDoc(rows: seq<DocRow>, user: int, docId: string)
    ensures ChunksOf(rows, user, docId) <= SumChunks(rows, user)
  {
    if |rows| > 0 {
      SumCoversDoc(rows[..|rows| - 1], user, docId);
    }
  }

  /** Deleting keeps the counters right whatever the engine does, and the max with zero never decides the new value. */
  lemma DeleteKeepsCounted(s: State, user: int, docId: string, engine: Engine)
    requires Counted(s)
    ensures Counted(Deleted(s, user, docId, engine).0)
    ensures user in s.counts ==>
              0 <= s.counts[user] - ChunksOf(s.rows, user, docId) == Deleted(s, user, docId, engine).0.counts[user]
  {
    SumCoversDoc(s.rows, user, docId);
    WithoutRows(s.rows, user, docId);
    forall u ensures SumChunks(Without(s.rows, user, docId), u) ==
                     SumChunks(s.rows, u) - if u == user then ChunksOf(s.rows, user, docId) else 0
    {
      SumWithout(s.rows, user, docId, u);
    }
  }

  /** The old document has as many chunks as the new one, and some. */
  predicate SameChunkCount(s: State, user: int, u: Upload) {
    Find(s.rows, user, u.docId).Some? && ChunksOf(s.rows, user, u.docId) == |u.chunks| > 0
  }

  /** An upload leaves the counters right exactly when every assigned total is written, or the engine failed, or the
      upload does not replace a document by one with the same number of chunks. */
  lemma UpsertKeepsCountedIff(s: State, user: int, u: Upload, engine: Engine, writesEqual: bool)
    requires Counted(s) && |u.chunks| == |u.embeddings|
    ensures Counted(Upserted(s, user, u, engine, writesEqual).0) <==>
            writesEqual || engine.upsertFails.Some? || !SameChunkCount(s, user, u)
  {
    hide Written, WithoutVectors, SumChunks, Without, Find;
    var loaded := WithCollection(s, user);
    NoRowsIfNew(s, user);
    if engine.upsertFails.Some? {
      DeleteKeepsCounted(loaded, user, u.docId, engine);
    } else {
      UploadKeepsCountedIff(loaded, user, u, engine, writesEqual);
    }
  }

  /** The same for an existing collection and an engine that takes the vectors. */
  lemma UploadKeepsCountedIff(s: State, user: int, u: Upload, engine: Engine, writesEqual: bool)
    requires Counted(s) && user in s.counts && |u.chunks| == |u.embeddings| && engine.upsertFails.None?
    ensures Counted(Upserted(s, user, u, engine, writesEqual).0) <==> writesEqual || !SameChunkCount(s, user, u)
  {
    var cleared := Deleted(s, user, u.docId, engine).0;
    assert Counted(cleared) && cleared.counts[user] == s.counts[user] - ChunksOf(s.rows, user, u.docId) by {
      DeleteKeepsCounted(s, user, u.docId, engine);
    }
    ClearedHasNoRow(s, user, u.docId, engine);
    var row := DocRow(user, u.docId, u.filename, u.size, |u.chunks|);
    var vectors := Written(cleared.vectors, user, u, |u.chunks|, None);
    StoredIff(cleared, s.counts[user], row, writesEqual, vectors);
  }

  /** The last step of an upload: a row is added, and the new total assigned over the value loaded at the start. */
  lemma StoredIff(s: State, loadedCount: int, row: DocRow, writesEqual: bool, vectors: map<(int, string), Vector>)
    requires Counted(s) && row.user in s.counts && forall r :: r in s.rows ==> !IsFor(r, row.user, row.docId)
    ensures var rows := s.rows + [row];
            var total := SumChunks(rows, row.user);
            var counts := if writesEqual || total != loadedCount then s.counts[row.user := total] else s.counts;
            Counted(State(counts, rows, vectors)) <==>
            writesEqual || loadedCount != s.counts[row.user] + row.chunks || row.chunks == 0
  {
    hide SumChunks;
    var rows := s.rows + [row];
    forall u ensures SumChunks(rows, u) == SumChunks(s.rows, u) + if u == row.user then row.chunks else 0 {
      SumSnoc(s.rows, row, u);
    }
    var total := SumChunks(rows, row.user);
    var counts := if writesEqual || total != loadedCount then s.counts[row.user := total] else s.counts;
    assert OneRowPerDoc(rows);
    assert forall r :: r in rows ==> r.user in counts;
    assert forall u :: u in counts && u != row.user ==> counts[u] == SumChunks(rows, u);
    assert total == s.counts[row.user] + row.chunks;
    if counts[row.user] == total {
      assert Counted(State(counts, rows, vectors));
    }
  }

  lemma NoRowsIfNew(s: State, user: int)
    requires Counted(s)
    ensures Counted(WithCollection(s, user))
    ensures user !in s.counts ==> SumChunks(s.rows, user) == 0 && forall d :: Find(s.rows, user, d).None?
  {
    if user !in s.counts {
      NoRowsNoChunks(s.rows, user);
      forall d ensures Find(s.rows, user, d).None? {
        FindMeans(s.rows, user, d);
      }
    }
  }

  // ----- the counter from any state, right or wrong -----

  /** A collection's counter; a missing collection will start at zero. */
  function CountOf(s: State, user: int): int {
    if user in s.counts then s.counts[user] else 0
  }

  predicate CountedFor(s: State, user: int) {
    CountOf(s, user) == SumChunks(s.rows, user)
  }

  /** What an upload assigns to the counter: the sum with the old document replaced by the new one. */
  function TotalWith(s: State, user: int, u: Upload): int {
    SumChunks(s.rows, user) - ChunksOf(s.rows, user, u.docId) + |u.chunks|
  }

  /** The counter behind the deletion that an upload starts with. */
  function CountCleared(s: State, user: int, docId: string): int {
    if Find(s.rows, user, docId).None? then CountOf(s, user)
    else Max(0, CountOf(s, user) - ChunksOf(s.rows, user, docId))
  }

  lemma {:induction false} FindWithout(rows: seq<DocRow>, user: int, docId: string, d: string)
    ensures Find(Without(rows, user, docId), user, d) == if d == docId then None else Find(rows, user, d)
  {
    if |rows| > 0 {
      var front, last := rows[..|rows| - 1], rows[|rows| - 1];
      FindWithout(front, user, docId, d);
      if !IsFor(last, user, docId) {
        FindSnoc(Without(front, user, docId), last, user, d);
      }
    }
  }

  lemma FindSnoc(rows: seq<DocRow>, row: DocRow, user: int, d: string)
    ensures Find(rows + [row], user, d) == if IsFor(row, user, d) then Some(row) else Find(rows, user, d)
  {
    assert (rows + [row])[..|rows|] == rows;
  }

  lemma UploadedRows(s: State, user: int, u: Upload, engine: Engine, writesEqual: bool)
    requires OneRowPerDoc(s.rows) && |u.chunks| == |u.embeddings| && engine.upsertFails.None?
    ensures Upserted(s, user, u, engine, writesEqual).0.rows ==
            Without(s.rows, user, u.docId) + [DocRow(user, u.docId, u.filename, u.size, |u.chunks|)]
  {
    hide Written, WithoutVectors, SumChunks, Find, Without, OneRowPerDoc;
    ClearedHasNoRow(WithCollection(s, user), user, u.docId, engine);
  }

  lemma ReplacedSum(rows: seq<DocRow>, row: DocRow)
    requires OneRowPerDoc(rows)
    ensures SumChunks(Without(rows, row.user, row.docId) + [row], row.user) ==
            SumChunks(rows, row.user) - ChunksOf(rows, row.user, row.docId) + row.chunks
  {
    SumWithout(rows, row.user, row.docId, row.user);
    SumSnoc(Without(rows, row.user, row.docId), row, row.user);
  }

  lemma ReplacedFind(rows: seq<DocRow>, row: DocRow, d: string)
    ensures Find(Without(rows, row.user, row.docId) + [row], row.user, d) ==
            if d == row.docId then Some(row) else Find(rows, row.user, d)
  {
    FindWithout(rows, row.user, row.docId, d);
    FindSnoc(Without(rows, row.user, row.docId), row, row.user, d);
  }

  /** The counter and the rows behind a successful upload, whatever the counter was before. */
  lemma UploadCount(s: State, user: int, u: Upload, engine: Engine, writesEqual: bool)
    requires OneRowPerDoc(s.rows) && |u.chunks| == |u.embeddings| && engine.upsertFails.None?
    ensures var s' := Upserted(s, user, u, engine, writesEqual).0;
            && OneRowPerDoc(s'.rows) && user in s'.counts
            && SumChunks(s'.rows, user) == TotalWith(s, user, u)
            && s'.counts[user] == if writesEqual || TotalWith(s, user, u) != CountOf(s, user)
                                  then TotalWith(s, user, u) else CountCleared(s, user, u.docId)
    ensures forall d :: Find(Upserted(s, user, u, engine, writesEqual).0.rows, user, d) ==
              if d == u.docId then Some(DocRow(user, u.docId, u.filename, u.size, |u.chunks|))
              else Find(s.rows, user, d)
  {
    hide SumChunks, Find, Without, Written, WithoutVectors, OneRowPerDoc;
    var row := DocRow(user, u.docId, u.filename, u.size, |u.chunks|);
    UploadedRows(s, user, u, engine, writesEqual);
    StepKeepsOneRow(s, Upsert(user, u, engine), writesEqual);
    ReplacedSum(s.rows, row);
    forall d
      ensures Find(Without(s.rows, user, u.docId) + [row], user, d) ==
              if d == u.docId then Some(row) else Find(s.rows, user, d)
    {
      ReplacedFind(s.rows, row, d);
    }
  }

  /** From any state, a successful upload leaves its collection's counter right exactly if every assigned total is
      written, or the total differs from the value loaded, or deleting the old document did not move the counter. */
  lemma UploadCountsRightIff(s: State, user: int, u: Upload, engine: Engine, writesEqual: bool)
    requires OneRowPerDoc(s.rows) && |u.chunks| == |u.embeddings| && engine.upsertFails.None?
    ensures CountedFor(Upserted(s, user, u, engine, writesEqual).0, user) <==>
            || writesEqual
            || TotalWith(s, user, u) != CountOf(s, user)
            || CountCleared(s, user, u.docId) == CountOf(s, user)
  {
    UploadCount(s, user, u, engine, writesEqual);
  }

  /** From any state, a deletion leaves the counter right exactly if it was right, or the clamp puts it right by chance:
      the counter is below the document's chunks, and no other document of the collection has any. */
  lemma DeletionCountsRightIff(s: State, user: int, docId: string, engine: Engine)
    requires OneRowPerDoc(s.rows) && user in s.counts
    ensures CountedFor(Deleted(s, user, docId, engine).0, user) <==>
            || CountedFor(s, user)
            || (&& Find(s.rows, user, docId).Some?
                && s.counts[user] < ChunksOf(s.rows, user, docId) == SumChunks(s.rows, user))
  {
    SumWithout(s.rows, user, docId, user);
    SumCoversDoc(s.rows, user, docId);
  }

  // ----- the vectors -----

  /** Every listed document has all its vectors. */
  ghost predicate Complete(s: State) {
    forall r, i: nat :: r in s.rows && i < r.chunks ==>
      var key := (r.user, VectorId(r.docId, i)); key in s.vectors && s.vectors[key].docId == r.docId
  }

  /** Every stored vector is one of a listed document's. */
  ghost predicate NoStrays(s: State) {
    forall key :: key in s.vectors ==> exists r, i: nat :: BelongsTo(key, s.vectors[key], r, i) && r in s.rows
  }

  ghost predicate BelongsTo(key: (int, string), v: Vector, r: DocRow, i: nat) {
    i < r.chunks && key == (r.user, VectorId(r.docId, i)) && v.docId == r.docId
  }

  lemma DeleteKeepsVectors(s: State, user: int, docId: string, engine: Engine)
    requires OneRowPerDoc(s.rows) && Complete(s)
    ensures Complete(Deleted(s, user, docId, engine).0)
    ensures NoStrays(s) && engine.deleteWorks ==> NoStrays(Deleted(s, user, docId, engine).0)
  {
    WithoutRows(s.rows, user, docId);
    FindMeans(s.rows, user, docId);
    var s' := Deleted(s, user, docId, engine).0;
    if NoStrays(s) && engine.deleteWorks {
      forall key | key in s'.vectors ensures exists r, i: nat :: BelongsTo(key, s'.vectors[key], r, i) && r in s'.rows {
        var r, i: nat :| BelongsTo(key, s.vectors[key], r, i) && r in s.rows;
        assert r in s'.rows;
      }
    }
  }

  lemma {:induction false} WrittenMeans(vectors: map<(int, string), Vector>, user: int, u: Upload, n: nat,
                                        failed: Option<set<nat>>)
    requires n <= |u.chunks|
    ensures var after := Written(vectors, user, u, n, failed);
            && (forall key :: key in after ==>
                  (key in vectors && after[key] == vectors[key]) ||
                  (exists i: nat :: i < n && (failed.None? || i in failed.value) &&
                                    key == (user, VectorId(u.docId, i)) && after[key] == VectorOf(u, i)))
            && (forall key :: key in vectors ==>
                  key in after && (after[key] == vectors[key] || after[key].docId == u.docId))
            && (failed.None? ==> forall i: nat :: i < n ==>
                  var key := (user, VectorId(u.docId, i)); key in after && after[key] == VectorOf(u, i))
  {
    hide VectorId;
    if n > 0 {
      assert VectorOf(u, n - 1).docId == u.docId;
      hide VectorOf;
      WrittenMeans(vectors, user, u, n - 1, failed);
      var last := (user, VectorId(u.docId, n - 1));
      forall i: nat | i < n - 1 ensures (user, VectorId(u.docId, i)) != last {
        if VectorId(u.docId, i) == VectorId(u.docId, n - 1) {
          VectorIdInjective(u.docId, i, u.docId, n - 1);
        }
      }
    }
  }

  /** Writing a document's vectors leaves every other listed document's alone. */
  lemma WrittenKeepsComplete(s: State, user: int, u: Upload, failed: Option<set<nat>>)
    requires Complete(s) && forall r :: r in s.rows ==> !IsFor(r, user, u.docId)
    ensures Complete(s.(vectors := Written(s.vectors, user, u, |u.chunks|, failed)))
  {
    var after := Written(s.vectors, user, u, |u.chunks|, failed);
    WrittenMeans(s.vectors, user, u, |u.chunks|, failed);
    forall r, i: nat | r in s.rows && i < r.chunks
      ensures var key := (r.user, VectorId(r.docId, i)); key in after && after[key].docId == r.docId
    {
      var key := (r.user, VectorId(r.docId, i));
      assert key in s.vectors && s.vectors[key].docId == r.docId;
      if after[key] != s.vectors[key] {
        var j: nat :| j < |u.chunks| && key == (user, VectorId(u.docId, j)) && after[key] == VectorOf(u, j);
        VectorIdInjective(r.docId, i, u.docId, j);
        assert false;
      }
    }
  }

  /** An engine that does its part: deletes work, and a failing upsert has written nothing. */
  predicate Reliable(engine: Engine) {
    engine.deleteWorks && (engine.upsertFails.None? || engine.upsertFails.value == {})
  }

  /** The vectors of a new row, over those of the rows before. */
  lemma StoredHasNoStrays(s: State, row: DocRow, u: Upload, counts: map<int, int>)
    requires NoStrays(s) && row == DocRow(row.user, u.docId, u.filename, u.size, |u.chunks|)
    ensures NoStrays(State(counts, s.rows + [row], Written(s.vectors, row.user, u, |u.chunks|, None)))
  {
    var after := Written(s.vectors, row.user, u, |u.chunks|, None);
    WrittenMeans(s.vectors, row.user, u, |u.chunks|, None);
    forall key | key in after
      ensures exists r, i: nat :: BelongsTo(key, after[key], r, i) && r in s.rows + [row]
    {
      if key in s.vectors && after[key] == s.vectors[key] {
        var r, i: nat :| BelongsTo(key, s.vectors[key], r, i) && r in s.rows;
        assert BelongsTo(key, after[key], r, i) && r in s.rows + [row];
      } else {
        var i: nat :| i < |u.chunks| && key == (row.user, VectorId(u.docId, i)) && after[key] == VectorOf(u, i);
        assert BelongsTo(key, after[key], row, i) && row in s.rows + [row];
      }
    }
  }

  lemma StoredIsComplete(s: State, row: DocRow, u: Upload, counts: map<int, int>)
    requires Complete(s) && row == DocRow(row.user, u.docId, u.filename, u.size, |u.chunks|)
    requires forall r :: r in s.rows ==> !IsFor(r, row.user, u.docId)
    ensures Complete(State(counts, s.rows + [row], Written(s.vectors, row.user, u, |u.chunks|, None)))
  {
    WrittenKeepsComplete(s, row.user, u, None);
    WrittenMeans(s.vectors, row.user, u, |u.chunks|, None);
  }

  lemma NothingWritten(vectors: map<(int, string), Vector>, user: int, u: Upload, n: nat)
    requires n <= |u.chunks|
    ensures Written(vectors, user, u, n, Some({})) == vectors
  {
    if n > 0 {
      NothingWritten(vectors, user, u, n - 1);
    }
  }

  /** Whatever the engine does, a listed document is never without its vectors. If its deletes work and a failing upsert
      writes nothing, there is no other vector either. */
  lemma UpsertKeepsVectors(s: State, user: int, u: Upload, engine: Engine, writesEqual: bool)
    requires OneRowPerDoc(s.rows) && Complete(s)
    ensures Complete(Upserted(s, user, u, engine, writesEqual).0)
    ensures NoStrays(s) && Reliable(engine) ==> NoStrays(Upserted(s, user, u, engine, writesEqual).0)
  {
    if |u.chunks| == |u.embeddings| {
      var loaded := WithCollection(s, user);
      assert Complete(loaded) && (NoStrays(s) ==> NoStrays(loaded));
      DeleteKeepsVectors(loaded, user, u.docId, engine);
      var cleared := Deleted(loaded, user, u.docId, engine).0;
      ClearedHasNoRow(loaded, user, u.docId, engine);
      if engine.upsertFails.Some? {
        WrittenKeepsComplete(cleared, user, u, engine.upsertFails);
        NothingWritten(cleared.vectors, user, u, |u.chunks|);
      } else {
        var row := DocRow(user, u.docId, u.filename, u.size, |u.chunks|);
        var counts := Upserted(s, user, u, engine, writesEqual).0.counts;
        StoredIsComplete(cleared, row, u, counts);
        if NoStrays(cleared) {
          StoredHasNoStrays(cleared, row, u, counts);
        }
      }
    }
  }

  lemma ClearedHasNoRow(s: State, user: int, docId: string, engine: Engine)
    requires OneRowPerDoc(s.rows) && user in s.counts
    ensures var cleared := Deleted(s, user, docId, engine).0;
            && OneRowPerDoc(cleared.rows)
            && cleared.rows == Without(s.rows, user, docId) == Without(cleared.rows, user, docId)
            && forall r :: r in cleared.rows ==> !IsFor(r, user, docId)
  {
    WithoutRows(s.rows, user, docId);
    var kept := Without(s.rows, user, docId);
    FindMeans(s.rows, user, docId);
    FindMeans(kept, user, docId);
    WithoutAbsent(kept, user, docId);
    if Find(s.rows, user, docId).None? {
      WithoutAbsent(s.rows, user, docId);
    }
  }

  // ----- what the vectors hold -----

  /** The row and the vectors of a document are those of an upload: vector i has the i-th text, page and embedding. */
  ghost predicate Carries(s: State, r: DocRow, u: Upload) {
    && r.docId == u.docId && r.filename == u.filename && r.size == u.size
    && r.chunks == |u.chunks| == |u.embeddings|
    && forall i: nat :: i < |u.chunks| ==> CarriesAt(s, r.user, u, i)
  }

  ghost predicate CarriesAt(s: State, user: int, u: Upload, i: nat)
    requires i < |u.chunks| == |u.embeddings|
  {
    var key := (user, u.docId + (":" + Digits(i)));
    && key in s.vectors
    && var v := s.vectors[key];
       && v.docId == u.docId && v.index == i && v.filename == u.filename
       && v.text == u.chunks[i] && v.embedding == u.embeddings[i]
       && v.page == if i < |u.pages| then u.pages[i] else None
  }

  lemma WrittenCarries(s: State, user: int, u: Upload, i: nat)
    requires i < |u.chunks| == |u.embeddings|
    ensures CarriesAt(s.(vectors := Written(s.vectors, user, u, |u.chunks|, None)), user, u, i)
  {
    WrittenMeans(s.vectors, user, u, |u.chunks|, None);
    assert VectorId(u.docId, i) == u.docId + (":" + Digits(i));
    var key := (user, VectorId(u.docId, i));
    hide VectorId, Written;
    assert key in Written(s.vectors, user, u, |u.chunks|, None);
  }

  /** Writing one document's vectors leaves the contents of the others' alone. */
  lemma WrittenKeepsOthers(s: State, user: int, u: Upload, failed: Option<set<nat>>, r: DocRow, w: Upload, i: nat)
    requires i < |w.chunks| == |w.embeddings| && CarriesAt(s, r.user, w, i)
    requires r.docId == w.docId && !IsFor(r, user, u.docId)
    ensures CarriesAt(s.(vectors := Written(s.vectors, user, u, |u.chunks|, failed)), r.user, w, i)
  {
    WrittenMeans(s.vectors, user, u, |u.chunks|, failed);
    var after := Written(s.vectors, user, u, |u.chunks|, failed);
    var key := (r.user, w.docId + (":" + Digits(i)));
    assert VectorId(w.docId, i) == w.docId + (":" + Digits(i));
    if after[key] != s.vectors[key] {
      var j: nat :| j < |u.chunks| && key == (user, VectorId(u.docId, j)) && after[key] == VectorOf(u, j);
      VectorIdInjective(w.docId, i, u.docId, j);
      assert false;
    }
  }

  /** A successful upload leaves a row and vectors with exactly what was uploaded. */
  lemma UploadCarries(s: State, user: int, u: Upload, engine: Engine, writesEqual: bool)
    requires OneRowPerDoc(s.rows) && |u.chunks| == |u.embeddings| && engine.upsertFails.None?
    ensures var s' := Upserted(s, user, u, engine, writesEqual).0;
            var row := DocRow(user, u.docId, u.filename, u.size, |u.chunks|);
            row in s'.rows && Carries(s', row, u)
  {
    hide Written, WithoutVectors, Without, Find, SumChunks, OneRowPerDoc;
    var s' := Upserted(s, user, u, engine, writesEqual).0;
    var row := DocRow(user, u.docId, u.filename, u.size, |u.chunks|);
    UploadedRows(s, user, u, engine, writesEqual);
    assert s'.rows[|s'.rows| - 1] == row;
    var cleared := Deleted(WithCollection(s, user), user, u.docId, engine).0;
    forall i: nat | i < |u.chunks| ensures CarriesAt(s', user, u, i) {
      WrittenCarries(cleared, user, u, i);
    }
  }

  /** What an upload does not touch, it keeps: the contents of every other document. */
  lemma UpsertKeepsContents(s: State, user: int, u: Upload, engine: Engine, writesEqual: bool, r: DocRow, w: Upload)
    requires OneRowPerDoc(s.rows) && Carries(s, r, w) && !IsFor(r, user, u.docId)
    ensures Carries(Upserted(s, user, u, engine, writesEqual).0, r, w)
  {
    hide Written, Without, Find, SumChunks, OneRowPerDoc;
    var cleared := Deleted(WithCollection(s, user), user, u.docId, engine).0;
    LoadedCarries(s, user, r, w);
    DeleteKeepsContents(WithCollection(s, user), user, u.docId, engine, r, w);
    forall i: nat | i < |w.chunks| ensures CarriesAt(Upserted(s, user, u, engine, writesEqual).0, r.user, w, i) {
      if |u.chunks| == |u.embeddings| {
        WrittenKeepsOthers(cleared, user, u, engine.upsertFails, r, w, i);
      } else {
        assert CarriesAt(s, r.user, w, i);
      }
    }
  }

  lemma LoadedCarries(s: State, user: int, r: DocRow, w: Upload)
    requires Carries(s, r, w)
    ensures Carries(WithCollection(s, user), r, w)
  {
    forall i: nat | i < |w.chunks| ensures CarriesAt(WithCollection(s, user), r.user, w, i) {
      assert CarriesAt(s, r.user, w, i);
    }
  }

  lemma DeleteKeepsContents(s: State, user: int, docId: string, engine: Engine, r: DocRow, w: Upload)
    requires Carries(s, r, w) && !IsFor(r, user, docId)
    ensures Carries(Deleted(s, user, docId, engine).0, r, w)
  {
    hide Without, Find;
    forall i: nat | i < |w.chunks| ensures CarriesAt(Deleted(s, user, docId, engine).0, r.user, w, i) {
      assert CarriesAt(s, r.user, w, i);
    }
  }

  // ----- whole runs -----

  datatype Event = Upsert(user: int, upload: Upload, engine: Engine) | Delete(user: int, docId: string, engine: Engine)

  function Step(s: State, e: Event, writesEqual: bool): State {
    match e
    case Upsert(user, u, engine) => Upserted(s, user, u, engine, writesEqual).0
    case Delete(user, docId, engine) => Deleted(s, user, docId, engine).0
  }

  function Run(s: State, events: seq<Event>, writesEqual: bool): State {
    if |events| == 0 then s
    else Step(Run(s, events[..|events| - 1], writesEqual), events[|events| - 1], writesEqual)
  }

  /** Counters survive every sequence of uploads and deletions and every engine failure, if assigned totals are
      written. */
  lemma {:induction false} RunKeepsCounted(s: State, events: seq<Event>)
    requires Counted(s)
    ensures Counted(Run(s, events, true))
  {
    if |events| > 0 {
      RunKeepsCounted(s, events[..|events| - 1]);
      var before := Run(s, events[..|events| - 1], true);
      match events[|events| - 1] {
        case Upsert(user, u, engine) =>
          if |u.chunks| == |u.embeddings| {
            UpsertKeepsCountedIff(before, user, u, engine, true);
          }
        case Delete(user, docId, engine) => DeleteKeepsCounted(before, user, docId, engine);
      }
    }
  }

  /** No successful upload of the run replaces a document by one with as many chunks. */
  ghost predicate NoEqualReplacement(s: State, events: seq<Event>) {
    |events| > 0 ==>
      var front, e := events[..|events| - 1], events[|events| - 1];
      && NoEqualReplacement(s, front)
      && (e.Upsert? && |e.upload.chunks| == |e.upload.embeddings| && e.engine.upsertFails.None? ==>
            !SameChunkCount(Run(s, front, false), e.user, e.upload))
  }

  /** With the mapper's equal-value rule, counters survive every run without such a replacement. */
  lemma {:induction false} RunKeepsCountedWithoutReplacement(s: State, events: seq<Event>)
    requires Counted(s) && NoEqualReplacement(s, events)
    ensures Counted(Run(s, events, false))
  {
    if |events| > 0 {
      RunKeepsCountedWithoutReplacement(s, events[..|events| - 1]);
      var before := Run(s, events[..|events| - 1], false);
      match events[|events| - 1] {
        case Upsert(user, u, engine) =>
          if |u.chunks| == |u.embeddings| {
            UpsertKeepsCountedIff(before, user, u, engine, false);
          }
        case Delete(user, docId, engine) => DeleteKeepsCounted(before, user, docId, engine);
      }
    }
  }

  lemma RunSnoc(s: State, events: seq<Event>, e: Event, writesEqual: bool)
    ensures Run(s, events + [e], writesEqual) == Step(Run(s, events, writesEqual), e, writesEqual)
  {
    assert (events + [e])[..|events|] == events;
  }

  /** With the mapper's equal-value rule the clamp of a deletion can bite: two documents, the larger one uploaded again
      and then deleted. The counter would fall below zero, is put at zero, and misses the other document. */
  lemma ClampBites(user: int, a: Upload, b: Upload, works: Engine)
    requires |a.chunks| == |a.embeddings| && |b.chunks| == |b.embeddings| && a.docId != b.docId
    requires 0 < |b.chunks| < |a.chunks| && works.upsertFails.None?
    ensures var uploads := [Upsert(user, a, works)] + [Upsert(user, b, works)] + [Upsert(user, a, works)];
            var s := Run(State(map[], [], map[]), uploads, false);
            var s' := Run(State(map[], [], map[]), uploads + [Delete(user, a.docId, works)], false);
            && CountOf(s, user) - ChunksOf(s.rows, user, a.docId) < 0
            && CountOf(s', user) == 0 && SumChunks(s'.rows, user) == |b.chunks|
  {
    hide Upserted, Deleted;
    var s0 := State(map[], [], map[]);
    var e1, e2, e3 := [Upsert(user, a, works)], Upsert(user, b, works), Upsert(user, a, works);
    RunSnoc(s0, [], e1[0], false);
    assert [] + e1 == e1;
    RunSnoc(s0, e1, e2, false);
    RunSnoc(s0, e1 + [e2], e3, false);
    RunSnoc(s0, e1 + [e2] + [e3], Delete(user, a.docId, works), false);
    UploadCount(s0, user, a, works, false);
    var s1 := Upserted(s0, user, a, works, false).0;
    UploadCount(s1, user, b, works, false);
    var s2 := Upserted(s1, user, b, works, false).0;
    UploadCount(s2, user, a, works, false);
    var s3 := Upserted(s2, user, a, works, false).0;
    assert CountOf(s3, user) == |b.chunks| && ChunksOf(s3.rows, user, a.docId) == |a.chunks|;
    DeletionAtZero(s3, user, a.docId, works);
  }

  lemma DeletionAtZero(s: State, user: int, docId: string, engine: Engine)
    requires OneRowPerDoc(s.rows) && user in s.counts && Find(s.rows, user, docId).Some?
    requires s.counts[user] < ChunksOf(s.rows, user, docId)
    ensures var s' := Deleted(s, user, docId, engine).0;
            && CountOf(s', user) == 0
            && SumChunks(s'.rows, user) == SumChunks(s.rows, user) - ChunksOf(s.rows, user, docId)
  {
    SumWithout(s.rows, user, docId, user);
  }

  /** Uploading a document twice, with the mapper's equal-value rule: the counter is short by the whole document. */
  lemma SecondUploadUncounts(user: int, u: Upload)
    requires |u.chunks| == |u.embeddings| && |u.chunks| > 0
    ensures var works := Engine(true, None);
            var twice := Run(State(map[], [], map[]), [Upsert(user, u, works), Upsert(user, u, works)], false);
            && SumChunks(twice.rows, user) == |u.chunks|
            && twice.counts == map[user := 0]
  {
    var works := Engine(true, None);
    var events := [Upsert(user, u, works), Upsert(user, u, works)];
    assert events[..1] == [events[0]] && events[..1][..0] == [];
    var s0 := State(map[], [], map[]);
    assert Run(s0, [], false) == s0;
    var row := DocRow(user, u.docId, u.filename, u.size, |u.chunks|);
    assert [row][..0] == [];
    assert SumChunks([row], user) == |u.chunks|;
    var s1 := Run(s0, [events[0]], false);
    assert s1.rows == [row] && s1.counts == map[user := |u.chunks|];
    assert Find([row], user, u.docId) == Some(row) && Without([row], user, u.docId) == [];
    assert Run(s0, events, false) == Step(s1, events[1], false);
  }

  /** The last successful upload of every document that was neither deleted nor replaced by a failed upload since. */
  function Latest(events: seq<Event>): map<(int, string), Upload> {
    if |events| == 0 then map[]
    else
      var front := Latest(events[..|events| - 1]);
      match events[|events| - 1]
      case Delete(user, docId, _) => front - {(user, docId)}
      case Upsert(user, u, engine) =>
        if |u.chunks| != |u.embeddings| then front
        else if engine.upsertFails.Some? then front - {(user, u.docId)}
        else front[(user, u.docId) := u]
  }

  /** The rows are those of the latest uploads, and carry what they uploaded. */
  ghost predicate HoldsLatest(s: State, latest: map<(int, string), Upload>) {
    && OneRowPerDoc(s.rows)
    && (forall r :: r in s.rows ==> r.user in s.counts)
    && (forall r :: r in s.rows ==> (r.user, r.docId) in latest && Carries(s, r, latest[(r.user, r.docId)]))
    && (forall key :: key in latest ==> exists r :: r in s.rows && (r.user, r.docId) == key)
  }

  lemma DeleteHoldsLatest(s: State, latest: map<(int, string), Upload>, user: int, docId: string, engine: Engine)
    requires HoldsLatest(s, latest)
    ensures HoldsLatest(Deleted(s, user, docId, engine).0, latest - {(user, docId)})
  {
    hide Carries, WithoutVectors;
    var s' := Deleted(s, user, docId, engine).0;
    WithoutRows(s.rows, user, docId);
    FindMeans(s.rows, user, docId);
    assert forall r :: r in s'.rows <==> r in s.rows && !IsFor(r, user, docId);
    forall r | r in s'.rows ensures Carries(s', r, latest[(r.user, r.docId)]) {
      DeleteKeepsContents(s, user, docId, engine, r, latest[(r.user, r.docId)]);
    }
    forall key | key in latest - {(user, docId)} ensures exists r :: r in s'.rows && (r.user, r.docId) == key {
      var r :| r in s.rows && (r.user, r.docId) == key;
      assert r in s'.rows;
    }
  }

  lemma UpsertedParts(s: State, user: int, u: Upload, engine: Engine, writesEqual: bool)
    requires OneRowPerDoc(s.rows) && |u.chunks| == |u.embeddings|
    ensures var cleared := Deleted(WithCollection(s, user), user, u.docId, engine).0;
            var s' := Upserted(s, user, u, engine, writesEqual).0;
            && s'.counts.Keys == cleared.counts.Keys == s.counts.Keys + {user}
            && s'.rows == cleared.rows +
                          if engine.upsertFails.Some? then []
                          else [DocRow(user, u.docId, u.filename, u.size, |u.chunks|)]
  {
    hide Written, WithoutVectors, Without, Find, SumChunks, OneRowPerDoc;
    ClearedHasNoRow(WithCollection(s, user), user, u.docId, engine);
    if engine.upsertFails.None? {
      UploadedRows(s, user, u, engine, writesEqual);
    }
  }

  lemma UpsertHoldsLatest(s: State, latest: map<(int, string), Upload>, user: int, u: Upload, engine: Engine,
                          writesEqual: bool)
    requires HoldsLatest(s, latest) && |u.chunks| == |u.embeddings|
    ensures HoldsLatest(Upserted(s, user, u, engine, writesEqual).0,
                        if engine.upsertFails.Some? then latest - {(user, u.docId)}
                        else latest[(user, u.docId) := u])
  {
    hide Carries, Upserted, Deleted, OneRowPerDoc;
    var loaded := WithCollection(s, user);
    var cleared := Deleted(loaded, user, u.docId, engine).0;
    var s' := Upserted(s, user, u, engine, writesEqual).0;
    var latest' := if engine.upsertFails.Some? then latest - {(user, u.docId)} else latest[(user, u.docId) := u];
    LoadedHoldsLatest(s, latest, user);
    DeleteHoldsLatest(loaded, latest, user, u.docId, engine);
    UpsertedParts(s, user, u, engine, writesEqual);
    StepKeepsOneRow(s, Upsert(user, u, engine), writesEqual);
    var row := DocRow(user, u.docId, u.filename, u.size, |u.chunks|);
    if engine.upsertFails.None? {
      UploadCarries(s, user, u, engine, writesEqual);
      assert s'.rows[|cleared.rows|] == row;
    }
    forall r | r in s'.rows ensures (r.user, r.docId) in latest' && Carries(s', r, latest'[(r.user, r.docId)]) {
      if r in cleared.rows {
        assert (r.user, r.docId) in latest - {(user, u.docId)};
        ClearedIsOther(s, user, u.docId, engine, r);
        CarriedBefore(s, latest, user, u, engine, writesEqual, r);
      }
    }
    forall key | key in latest' ensures exists r :: r in s'.rows && (r.user, r.docId) == key {
      if key in latest - {(user, u.docId)} {
        var r :| r in cleared.rows && (r.user, r.docId) == key;
        assert r in s'.rows;
      } else {
        assert row in s'.rows;
      }
    }
  }

  lemma LoadedHoldsLatest(s: State, latest: map<(int, string), Upload>, user: int)
    requires HoldsLatest(s, latest)
    ensures HoldsLatest(WithCollection(s, user), latest)
  {
    hide OneRowPerDoc;
    forall r | r in s.rows ensures Carries(WithCollection(s, user), r, latest[(r.user, r.docId)]) {
      LoadedCarries(s, user, r, latest[(r.user, r.docId)]);
    }
  }

  lemma ClearedIsOther(s: State, user: int, docId: string, engine: Engine, r: DocRow)
    requires OneRowPerDoc(s.rows) && r in Deleted(WithCollection(s, user), user, docId, engine).0.rows
    ensures r in s.rows && !IsFor(r, user, docId)
  {
    hide WithoutVectors;
    var loaded := WithCollection(s, user);
    ClearedHasNoRow(loaded, user, docId, engine);
    WithoutRows(s.rows, user, docId);
  }

  lemma CarriedBefore(s: State, latest: map<(int, string), Upload>, user: int, u: Upload, engine: Engine,
                      writesEqual: bool, r: DocRow)
    requires HoldsLatest(s, latest) && r in s.rows && !IsFor(r, user, u.docId)
    ensures (r.user, r.docId) in latest
    ensures Carries(Upserted(s, user, u, engine, writesEqual).0, r, latest[(r.user, r.docId)])
  {
    hide Carries, Upserted, OneRowPerDoc;
    UpsertKeepsContents(s, user, u, engine, writesEqual, r, latest[(r.user, r.docId)]);
  }

  /** Over every run from the empty store, whatever the engine does: the listed documents are those whose last upload
      succeeded and that were not deleted since, and row and vectors of each are exactly what that upload brought. */
  lemma {:induction false} RunHoldsLatest(events: seq<Event>, writesEqual: bool)
    ensures HoldsLatest(Run(State(map[], [], map[]), events, writesEqual), Latest(events))
  {
    hide HoldsLatest, Upserted, Deleted;
    if |events| == 0 {
      NothingIsHeld();
    } else {
      var front := events[..|events| - 1];
      RunHoldsLatest(front, writesEqual);
      var s := Run(State(map[], [], map[]), front, writesEqual);
      match events[|events| - 1] {
        case Delete(user, docId, engine) => DeleteHoldsLatest(s, Latest(front), user, docId, engine);
        case Upsert(user, u, engine) =>
          if |u.chunks| == |u.embeddings| {
            UpsertHoldsLatest(s, Latest(front), user, u, engine, writesEqual);
          } else {
            RefusedUpload(s, user, u, engine, writesEqual);
          }
      }
    }
  }

  lemma NothingIsHeld()
    ensures HoldsLatest(State(map[], [], map[]), map[])
  {
  }

  /** Chunks and embeddings that do not match are refused before anything is touched. */
  lemma RefusedUpload(s: State, user: int, u: Upload, engine: Engine, writesEqual: bool)
    ensures |u.chunks| != |u.embeddings| <==> Upserted(s, user, u, engine, writesEqual).1 == Some(CountsDiffer)
    ensures |u.chunks| != |u.embeddings| ==> Upserted(s, user, u, engine, writesEqual).0 == s
  {
    hide Written, Deleted, Without, SumChunks;
  }

  /** The stored vectors are exactly those of the listed documents, over every run with a reliable engine. */
  lemma {:induction false} RunKeepsVectors(s: State, events: seq<Event>, writesEqual: bool)
    requires OneRowPerDoc(s.rows) && Complete(s)
    ensures OneRowPerDoc(Run(s, events, writesEqual).rows) && Complete(Run(s, events, writesEqual))
    ensures NoStrays(s) && (forall e :: e in events ==> Reliable(e.engine)) ==> NoStrays(Run(s, events, writesEqual))
  {
    if |events| > 0 {
      var front, e := events[..|events| - 1], events[|events| - 1];
      RunKeepsVectors(s, front, writesEqual);
      var before := Run(s, front, writesEqual);
      assert forall x :: x in front ==> x in events;
      assert e in events;
      StepKeepsOneRow(before, e, writesEqual);
      match e {
        case Upsert(user, u, engine) => UpsertKeepsVectors(before, user, u, engine, writesEqual);
        case Delete(user, docId, engine) => DeleteKeepsVectors(before, user, docId, engine);
      }
    }
  }

  lemma StepKeepsOneRow(s: State, e: Event, writesEqual: bool)
    requires OneRowPerDoc(s.rows)
    ensures OneRowPerDoc(Step(s, e, writesEqual).rows)
  {
    match e {
      case Upsert(user, u, engine) =>
        var loaded := WithCollection(s, user);
        ClearedHasNoRow(loaded, user, u.docId, engine);
      case Delete(user, docId, engine) => WithoutRows(s.rows, user, docId);
    }
  }
}
