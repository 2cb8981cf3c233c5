/** The pgvector-backed chunk table (backend/src/ai/vector-store.ts) as an
    in-memory table: a sequence of rows with store-assigned increasing ids.
    DELETE, INSERT and the similarity SELECT are modelled on that sequence;
    cosine distance is an abstract ordering key supplied by the caller. */
module VectorStore {
  import opened Common
  import opened Sorting

  /** An embedding vector; the model does not look inside its numbers. */
  type Embedding = seq<real>

  /** The embedding provider's `embed`: a vector, or the error it throws. */
  type Embedder = string -> Result<Embedding, string>

  /** A row to insert (RagChunkInsert); an absent stage is `None`, stored as NULL. */
  datatype ChunkInsert = ChunkInsert(
    cropId: string, stage: Option<string>, lang: string,
    sourcePath: string, chunk: string, embedding: Embedding)

  /** A row of rag_chunks; `id` is the BIGSERIAL primary key. */
  datatype StoredRow = StoredRow(
    id: nat, cropId: string, stage: Option<string>, lang: string,
    sourcePath: string, chunk: string, embedding: Embedding)

  /** A search result row (RagChunkRow): the id as text and the similarity score. */
  datatype ChunkRow = ChunkRow(
    id: string, cropId: string, stage: Option<string>, lang: string,
    sourcePath: string, chunk: string, score: Option<real>)

  /** The cosine distance `embedding <=> query`, as an abstract ordering key. */
  type Distance = (Embedding, Embedding) -> real

  const EMPTY_VECTOR_ERROR := "Cannot store empty vector"
  const NEGATIVE_LIMIT_ERROR := "LIMIT must not be negative"
  const INVALID_LIMIT_ERROR := "invalid input syntax for type bigint"

  /** The `LIMIT $5` parameter: the driver sends the number's text, which the
      database accepts only as an integer, and refuses when negative. */
  function LimitParameter(limit: JsNumber): (r: Result<nat, string>)
    ensures r.Success? <==> limit.Finite? && limit.r == limit.r.Floor as real && limit.r >= 0.0
    ensures r.Success? ==> r.value as real == limit.r
    ensures r.Failure? && limit.Finite? && limit.r == limit.r.Floor as real ==> r.error == NEGATIVE_LIMIT_ERROR
  {
    if !limit.Finite? || limit.r != limit.r.Floor as real then Failure(INVALID_LIMIT_ERROR)
    else if limit.r < 0.0 then Failure(NEGATIVE_LIMIT_ERROR)
    else Success(limit.r.Floor as nat)
  }

  /** formatVectorLiteral: refuses an empty vector; the fixed-precision text of a
      non-empty one is represented by the vector itself. */
  function FormatVectorLiteral(values: Embedding): (r: Result<Embedding, string>)
    ensures r.Failure? <==> values == []
    ensures r.Failure? ==> r.error == EMPTY_VECTOR_ERROR
    ensures r.Success? ==> r.value == values
  {
    if values == [] then Failure(EMPTY_VECTOR_ERROR) else Success(values)
  }

  function Stored(c: ChunkInsert, id: nat): StoredRow {
    StoredRow(id, c.cropId, c.stage, c.lang, c.sourcePath, c.chunk, c.embedding)
  }

  /** The rows the INSERT loop adds for `chunks`, numbered from `firstId`. */
  function NewRows(chunks: seq<ChunkInsert>, firstId: nat): (r: seq<StoredRow>)
    ensures |r| == |chunks|
    ensures forall i :: 0 <= i < |r| ==> r[i] == Stored(chunks[i], firstId + i)
  {
    seq(|chunks|, i requires 0 <= i < |chunks| => Stored(chunks[i], firstId + i))
  }

  /** The index of the first chunk with an empty embedding, or |chunks|. */
  function FirstEmptyEmbedding(chunks: seq<ChunkInsert>): (k: nat)
    ensures k <= |chunks|
    ensures forall i :: 0 <= i < k ==> chunks[i].embedding != []
    ensures k < |chunks| ==> chunks[k].embedding == []
  {
    if chunks == [] || chunks[0].embedding == [] then 0
    else 1 + FirstEmptyEmbedding(chunks[1..])
  }

  /** The `text[]` parameter `$1` as a set of paths. */
  function PathSet(paths: seq<string>): (s: set<string>)
    ensures forall p :: p in s <==> p in paths
  {
    set p | p in paths
  }

  /** `DELETE FROM rag_chunks WHERE source_path = ANY($1)`: the rows whose source
      is not in `paths`, in their original order. */
  function WithoutSources(rows: seq<StoredRow>, paths: set<string>): (r: seq<StoredRow>)
    ensures forall x :: x in r <==> x in rows && x.sourcePath !in paths
    ensures |r| <= |rows|
  {
    if rows == [] then []
    else (if rows[0].sourcePath in paths then [] else [rows[0]]) + WithoutSources(rows[1..], paths)
  }

  lemma {:induction false} WithoutSourcesAppend(a: seq<StoredRow>, b: seq<StoredRow>, paths: set<string>)
    ensures WithoutSources(a + b, paths) == WithoutSources(a, paths) + WithoutSources(b, paths)
  {
    if a != [] {
      assert (a + b)[1..] == a[1..] + b;
      WithoutSourcesAppend(a[1..], b, paths);
    } else {
      assert a + b == b;
    }
  }

  /** Deleting by an empty list of sources leaves the table as it is. */
  lemma {:induction false} WithoutNoSources(rows: seq<StoredRow>)
    ensures WithoutSources(rows, {}) == rows
  {
    if rows != [] {
      WithoutNoSources(rows[1..]);
      assert [rows[0]] + rows[1..] == rows;
    }
  }

  /** Deleting the same sources twice is deleting them once. */
  lemma {:induction false} WithoutSourcesTwice(rows: seq<StoredRow>, paths: set<string>)
    ensures WithoutSources(WithoutSources(rows, paths), paths) == WithoutSources(rows, paths)
  {
    if rows != [] {
      var head := if rows[0].sourcePath in paths then [] else [rows[0]];
      WithoutSourcesAppend(head, WithoutSources(rows[1..], paths), paths);
      WithoutSourcesTwice(rows[1..], paths);
      if head != [] {
        assert head[1..] == [];
      }
    }
  }

  /** `WHERE crop_id = $2 AND lang = $3 AND ($4 IS NULL OR stage = $4 OR stage IS NULL)` */
  predicate Matches(row: StoredRow, cropId: string, lang: string, stage: Option<string>) {
    row.cropId == cropId && row.lang == lang
    && (stage.None? || row.stage == stage || row.stage.None?)
  }

  function Matching(rows: seq<StoredRow>, cropId: string, lang: string, stage: Option<string>): (r: seq<StoredRow>)
    ensures forall x :: x in r <==> x in rows && Matches(x, cropId, lang, stage)
  {
    if rows == [] then []
    else (if Matches(rows[0], cropId, lang, stage) then [rows[0]] else [])
         + Matching(rows[1..], cropId, lang, stage)
  }

  /** `ORDER BY embedding <=> $1 LIMIT $5` over the matching rows: at most `limit`
      matching rows, each at most once, nearest first, and no matching row left
      out is nearer than one returned. Postgres leaves the order of rows at equal
      distance unspecified; this model breaks such ties by table order. */
  function Nearest(rows: seq<StoredRow>, query: Embedding, cropId: string, lang: string,
                   stage: Option<string>, limit: nat, distance: Distance): (r: seq<StoredRow>)
    ensures |r| <= limit
    ensures |r| == limit || multiset(r) == multiset(Matching(rows, cropId, lang, stage))
    ensures multiset(r) <= multiset(Matching(rows, cropId, lang, stage))
    ensures forall x :: x in r ==> x in rows && Matches(x, cropId, lang, stage)
    ensures forall i, j :: 0 <= i < j < |r| ==>
              distance(r[i].embedding, query) <= distance(r[j].embedding, query)
    ensures forall x :: x in rows && Matches(x, cropId, lang, stage) && x !in r ==>
              forall i :: 0 <= i < |r| ==> distance(r[i].embedding, query) <= distance(x.embedding, query)
  {
    var key := (row: StoredRow) => distance(row.embedding, query);
    var m := Matching(rows, cropId, lang, stage);
    TakeSorted(m, key, limit);
    Take(SortBy(m, key), limit)
  }

  /** The first `limit` rows in key order: sorted, drawn from `m` without
      repeating any row more often than `m` holds it, all of `m` when fewer,
      and none left out has a smaller key than one kept. */
  lemma TakeSorted(m: seq<StoredRow>, key: StoredRow -> real, limit: nat)
    ensures var r := Take(SortBy(m, key), limit);
            && (|r| == limit || multiset(r) == multiset(m))
            && multiset(r) <= multiset(m)
            && (forall x :: x in r ==> x in m)
            && SortedBy(r, key)
            && (forall x :: x in m && x !in r ==> forall i :: 0 <= i < |r| ==> key(r[i]) <= key(x))
  {
    var sorted := SortBy(m, key);
    var r := Take(sorted, limit);
    PrefixMultiset(sorted, |r|);
    forall x | x in r ensures x in m {
      SortByMembers(m, key, x);
    }
    forall x | x in m && x !in r ensures forall i :: 0 <= i < |r| ==> key(r[i]) <= key(x) {
      SortByMembers(m, key, x);
      SortedPrefixNearest(sorted, key, |r|, x);
    }
    forall i, j | 0 <= i < j < |r| ensures key(r[i]) <= key(r[j]) {
      assert r[i] == sorted[i] && r[j] == sorted[j];
    }
  }

  /** A prefix holds no element more often than the whole sequence. */
  lemma PrefixMultiset<T>(s: seq<T>, n: nat)
    requires n <= |s|
    ensures multiset(s[..n]) <= multiset(s)
  {
    assert s == s[..n] + s[n..];
    assert multiset(s) == multiset(s[..n]) + multiset(s[n..]);
  }

  /** The SELECT's projection of a row: id as text, score = 1 - distance. */
  function ToChunkRow(row: StoredRow, query: Embedding, distance: Distance): ChunkRow {
    ChunkRow(NatToString(row.id), row.cropId, row.stage, row.lang, row.sourcePath, row.chunk,
             Some(1.0 - distance(row.embedding, query)))
  }

  predicate IdsIncreasing(rows: seq<StoredRow>) {
    forall i, j :: 0 <= i < j < |rows| ==> rows[i].id < rows[j].id
  }

  lemma {:induction false} WithoutSourcesKeepsOrder(rows: seq<StoredRow>, paths: set<string>)
    requires IdsIncreasing(rows)
    ensures IdsIncreasing(WithoutSources(rows, paths))
    ensures forall x :: x in WithoutSources(rows, paths) ==> x in rows
  {
    if rows != [] {
      var tail := rows[1..];
      WithoutSourcesKeepsOrder(tail, paths);
      var rest := WithoutSources(tail, paths);
      assert forall i :: 0 <= i < |tail| ==> tail[i].id > rows[0].id by {
        forall i | 0 <= i < |tail| ensures tail[i].id > rows[0].id {
          assert tail[i] == rows[i + 1];
        }
      }
      WithoutSourcesAbove(tail, paths, rows[0].id);
      if rows[0].sourcePath !in paths {
        assert WithoutSources(rows, paths) == [rows[0]] + rest;
        ConsIncreasing(rows[0], rest);
      } else {
        assert WithoutSources(rows, paths) == rest;
      }
    }
  }

  lemma ConsIncreasing(x: StoredRow, rest: seq<StoredRow>)
    requires IdsIncreasing(rest)
    requires forall i :: 0 <= i < |rest| ==> rest[i].id > x.id
    ensures IdsIncreasing([x] + rest)
  {
    var r := [x] + rest;
    forall i, j | 0 <= i < j < |r| ensures r[i].id < r[j].id {
      assert r[j] == rest[j - 1];
      if i > 0 { assert r[i] == rest[i - 1]; }
    }
  }

  /** Filtering keeps every id above a bound that all rows are above. */
  lemma {:induction false} WithoutSourcesAbove(rows: seq<StoredRow>, paths: set<string>, bound: int)
    requires forall i :: 0 <= i < |rows| ==> rows[i].id > bound
    ensures forall i :: 0 <= i < |WithoutSources(rows, paths)| ==> WithoutSources(rows, paths)[i].id > bound
  {
    if rows != [] {
      var tail := rows[1..];
      assert forall i :: 0 <= i < |tail| ==> tail[i] == rows[i + 1];
      WithoutSourcesAbove(tail, paths, bound);
      var rest := WithoutSources(tail, paths);
      if rows[0].sourcePath !in paths {
        var r := [rows[0]] + rest;
        assert WithoutSources(rows, paths) == r;
        assert forall i :: 0 < i < |r| ==> r[i] == rest[i - 1];
      } else {
        assert WithoutSources(rows, paths) == rest;
      }
    }
  }

  /** The chunk table. */
  class RagTable {
    var rows: seq<StoredRow>
    /** The next value of the BIGSERIAL sequence. */
    var nextId: nat

    /** Ids are unique and increase in insertion order; all are below nextId. */
    ghost predicate Valid()
      reads this
    {
      IdsIncreasing(rows) && forall i :: 0 <= i < |rows| ==> rows[i].id < nextId
    }

    constructor ()
      ensures Valid() && rows == [] && nextId == 1
    {
      rows := [];
      nextId := 1;
    }

    /** resetChunksForSources: removes exactly the rows of the given sources. */
    method ResetChunksForSources(sourcePaths: seq<string>)
      requires Valid()
      modifies this
      ensures Valid()
      ensures rows == WithoutSources(old(rows), PathSet(sourcePaths))
      ensures sourcePaths == [] ==> rows == old(rows)
      ensures nextId == old(nextId)
    {
      if sourcePaths == [] {
        WithoutNoSources(rows);
        assert PathSet(sourcePaths) == {};
        return;
      }
      WithoutSourcesKeepsOrder(rows, PathSet(sourcePaths));
      rows := WithoutSources(rows, PathSet(sourcePaths));
    }

    /** insertChunks: one INSERT per chunk, in order, without a transaction. The
        chunk with the first empty embedding fails, after the chunks before it
        were inserted. */
    method InsertChunks(chunks: seq<ChunkInsert>) returns (outcome: Result<(), string>)
      requires Valid()
      modifies this
      ensures Valid()
      ensures var k := FirstEmptyEmbedding(chunks);
              && rows == old(rows) + NewRows(chunks[..k], old(nextId))
              && nextId == old(nextId) + k
              && (outcome.Success? <==> k == |chunks|)
              && (outcome.Failure? ==> outcome.error == EMPTY_VECTOR_ERROR)
    {
      if chunks == [] {
        assert chunks[..0] == [];
        assert rows + [] == rows;
        return Success(());
      }
      ghost var rows0, id0 := rows, nextId;
      var i := 0;
      while i < |chunks|
        invariant 0 <= i <= |chunks|
        invariant forall j :: 0 <= j < i ==> chunks[j].embedding != []
        invariant rows == rows0 + NewRows(chunks[..i], id0) && nextId == id0 + i
        invariant Valid()
      {
        var literal := FormatVectorLiteral(chunks[i].embedding);
        if literal.Failure? {
          assert FirstEmptyEmbedding(chunks) == i by { FirstEmptyIs(chunks, i); }
          return Failure(literal.error);
        }
        assert chunks[..i + 1] == chunks[..i] + [chunks[i]];
        assert NewRows(chunks[..i + 1], id0) == NewRows(chunks[..i], id0) + [Stored(chunks[i], nextId)];
        rows := rows + [Stored(chunks[i], nextId)];
        nextId := nextId + 1;
        i := i + 1;
      }
      assert FirstEmptyEmbedding(chunks) == |chunks| by { FirstEmptyIs(chunks, |chunks|); }
      assert chunks[..|chunks|] == chunks;
      return Success(());
    }

    /** searchChunks: the error for an empty query vector or a negative LIMIT;
        otherwise the nearest matching rows, projected with their scores. */
    function SearchChunks(embedding: Embedding, cropId: string, lang: string, stage: Option<string>,
                          limit: JsNumber, distance: Distance): (r: Result<seq<ChunkRow>, string>)
      reads this
      ensures embedding == [] ==> r == Failure(EMPTY_VECTOR_ERROR)
      ensures embedding != [] ==> (r.Success? <==> LimitParameter(limit).Success?)
      ensures embedding != [] && LimitParameter(limit).Failure? ==> r == Failure(LimitParameter(limit).error)
      ensures r.Success? ==>
                var near := Nearest(rows, embedding, cropId, lang, stage, LimitParameter(limit).value, distance);
                && |r.value| == |near| && |near| as real <= limit.r
                && forall i :: 0 <= i < |near| ==> r.value[i] == ToChunkRow(near[i], embedding, distance)
      ensures r.Success? ==> forall i :: 0 <= i < |r.value| ==>
                r.value[i].cropId == cropId && r.value[i].lang == lang
                && (stage.None? || r.value[i].stage == stage || r.value[i].stage.None?)
      ensures r.Success? ==> forall i, j :: 0 <= i < j < |r.value| ==>
                r.value[i].score.Some? && r.value[j].score.Some? && r.value[j].score.value <= r.value[i].score.value
    {
      match FormatVectorLiteral(embedding)
      case Failure(e) => Failure(e)
      case Success(_) =>
        match LimitParameter(limit)
        case Failure(e) => Failure(e)
        case Success(n) =>
          var near := Nearest(rows, embedding, cropId, lang, stage, n, distance);
          ProjectedRows(near, embedding, distance, cropId, lang, stage);
          Success(Project(near, embedding, distance))
    }
  }

  /** The SELECT list applied to each row, in order. */
  function Project(near: seq<StoredRow>, query: Embedding, distance: Distance): (out: seq<ChunkRow>)
    ensures |out| == |near|
    ensures forall i :: 0 <= i < |near| ==> out[i] == ToChunkRow(near[i], query, distance)
  {
    seq(|near|, i requires 0 <= i < |near| => ToChunkRow(near[i], query, distance))
  }

  /** Projected matching rows keep the filter's columns, and rows sorted
      nearest first have non-increasing scores. */
  lemma ProjectedRows(near: seq<StoredRow>, query: Embedding, distance: Distance,
                      cropId: string, lang: string, stage: Option<string>)
    requires forall x :: x in near ==> Matches(x, cropId, lang, stage)
    requires forall i, j :: 0 <= i < j < |near| ==> distance(near[i].embedding, query) <= distance(near[j].embedding, query)
    ensures var out := Project(near, query, distance);
            forall i :: 0 <= i < |out| ==>
              out[i].cropId == cropId && out[i].lang == lang
              && (stage.None? || out[i].stage == stage || out[i].stage.None?)
    ensures var out := Project(near, query, distance);
            forall i, j :: 0 <= i < j < |out| ==>
              out[i].score.Some? && out[j].score.Some? && out[j].score.value <= out[i].score.value
  {
    var out := Project(near, query, distance);
    forall i | 0 <= i < |out|
      ensures out[i].cropId == cropId && out[i].lang == lang
      ensures stage.None? || out[i].stage == stage || out[i].stage.None?
    {
      assert near[i] in near;
    }
  }

  lemma {:induction false} FirstEmptyIs(chunks: seq<ChunkInsert>, k: nat)
    requires k <= |chunks|
    requires forall j :: 0 <= j < k ==> chunks[j].embedding != []
    requires k < |chunks| ==> chunks[k].embedding == []
    ensures FirstEmptyEmbedding(chunks) == k
  {
    if k > 0 {
      FirstEmptyIs(chunks[1..], k - 1);
    }
  }

  /** Content of a row apart from its store-assigned id. */
  function Content(row: StoredRow): ChunkInsert {
    ChunkInsert(row.cropId, row.stage, row.lang, row.sourcePath, row.chunk, row.embedding)
  }

  function Contents(rows: seq<StoredRow>): (r: seq<ChunkInsert>)
    ensures |r| == |rows|
    ensures forall i :: 0 <= i < |rows| ==> r[i] == Content(rows[i])
  {
    seq(|rows|, i requires 0 <= i < |rows| => Content(rows[i]))
  }

  /** Replace-by-source: delete the sources, then append the new rows. */
  function Replace(rows: seq<StoredRow>, paths: set<string>, chunks: seq<ChunkInsert>, firstId: nat): seq<StoredRow> {
    WithoutSources(rows, paths) + NewRows(chunks, firstId)
  }

  /** Idempotent replace: when every new chunk belongs to one of the replaced
      sources, replacing a second time gives the same table content as
      replacing once (only the store-assigned ids differ). */
  lemma {:induction false} ReplaceIdempotent(rows: seq<StoredRow>, paths: set<string>,
                                             chunks: seq<ChunkInsert>, id1: nat, id2: nat)
    requires forall i :: 0 <= i < |chunks| ==> chunks[i].sourcePath in paths
    ensures Contents(Replace(Replace(rows, paths, chunks, id1), paths, chunks, id2))
         == Contents(Replace(rows, paths, chunks, id1))
  {
    var once := Replace(rows, paths, chunks, id1);
    WithoutSourcesAppend(WithoutSources(rows, paths), NewRows(chunks, id1), paths);
    WithoutSourcesTwice(rows, paths);
    NoneLeft(NewRows(chunks, id1), paths);
    assert WithoutSources(once, paths) == WithoutSources(rows, paths);
    var twice := WithoutSources(rows, paths) + NewRows(chunks, id2);
    assert Contents(twice) == Contents(once);
  }

  lemma {:induction false} NoneLeft(rows: seq<StoredRow>, paths: set<string>)
    requires forall i :: 0 <= i < |rows| ==> rows[i].sourcePath in paths
    ensures WithoutSources(rows, paths) == []
  {
    if rows != [] {
      NoneLeft(rows[1..], paths);
    }
  }
}
