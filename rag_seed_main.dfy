/** The per-seed sequence of the RAG seeder's main (backend/src/scripts/rag-seed.ts):
    skip a seed without crop metadata, collect its YAML and companion Markdown
    chunks, skip it when there are none, delete the rows of its sources, embed
    every chunk and insert the rows. The YAML parse, directory listing and file
    reads are done before the model starts (a seed arrives parsed, with its
    companion files' contents); the embedding provider is a function parameter. */
module RagSeedMain {
  import opened Common
  import opened VectorStore
  import opened RagSeed

  /** A companion Markdown file: its repository-relative path and its content. */
  datatype MarkdownFile = MarkdownFile(path: string, content: string)

  /** A discovered seed: the repository-relative YAML path, the parsed document
      (`None` when the YAML is empty or null) and the companion Markdown files
      whose names start with the seed's base name, in directory order. */
  datatype SeedFile = SeedFile(path: string, doc: Option<SeedDoc>, companions: seq<MarkdownFile>)

  /** A value snapshot of the chunk table. */
  datatype Table = Table(rows: seq<StoredRow>, nextId: nat)

  /** What processing one seed leads to. `Failed` ends the run (the error
      reaches main's catch, which exits the process). */
  datatype SeedOutcome = Skipped(reason: string) | Inserted(chunks: nat, sources: nat) | Failed(error: string)

  /** The whole run: no seed files at all, every seed processed, or aborted. */
  datatype RunOutcome = NoSeeds | Completed | Aborted(error: string)

  const MISSING_METADATA := "missing crop metadata"
  const NO_CHUNKABLE_TEXT := "No chunkable text found, skipping"

  /** `doc?.crop?.id && doc.crop.variety`: both present and non-empty. */
  predicate HasCropMetadata(doc: Option<SeedDoc>) {
    doc.Some? && doc.value.crop.Some? && Truthy(doc.value.crop.value.id) && Truthy(doc.value.crop.value.variety)
  }

  /** The chunks of the companion files, file after file, all with a null stage. */
  function MarkdownChunks(files: seq<MarkdownFile>, cropId: string, lang: string): seq<RawChunk> {
    if files == [] then []
    else
      var n := |files| - 1;
      MarkdownChunks(files[..n], cropId, lang) + Tag(Chunks(files[n].content), cropId, lang, None, files[n].path)
  }

  lemma MarkdownChunksStep(files: seq<MarkdownFile>, i: nat, cropId: string, lang: string)
    requires i < |files|
    ensures MarkdownChunks(files[..i + 1], cropId, lang)
         == MarkdownChunks(files[..i], cropId, lang) + Tag(Chunks(files[i].content), cropId, lang, None, files[i].path)
  {
    assert files[..i + 1][..i] == files[..i];
  }

  /** Every companion chunk carries the seed's crop id and language, a null
      stage and the path of one of the companion files. */
  lemma {:induction false} MarkdownChunksTags(files: seq<MarkdownFile>, cropId: string, lang: string, i: nat)
    returns (k: nat)
    requires i < |MarkdownChunks(files, cropId, lang)|
    ensures var c := MarkdownChunks(files, cropId, lang)[i];
            && c.cropId == cropId && c.lang == lang && c.stage.None?
            && k < |files| && c.sourcePath == files[k].path && c.text in Chunks(files[k].content)
  {
    var n := |files| - 1;
    var before := MarkdownChunks(files[..n], cropId, lang);
    if i < |before| {
      k := MarkdownChunksTags(files[..n], cropId, lang, i);
      assert files[..n][k] == files[k];
    } else {
      k := n;
      var tagged := Tag(Chunks(files[n].content), cropId, lang, None, files[n].path);
      assert MarkdownChunks(files, cropId, lang)[i] == tagged[i - |before|];
    }
  }

  /** The seed's raw chunks: the YAML chunks, then the companion chunks with the
      crop's language (default "en"). */
  function RawChunks(seed: SeedFile): seq<RawChunk>
    requires HasCropMetadata(seed.doc)
  {
    var crop := seed.doc.value.crop.value;
    SeedChunks(seed.doc.value, seed.path) + MarkdownChunks(seed.companions, crop.id.value, crop.lang.GetOr("en"))
  }

  /** `Array.from(new Set(chunks.map(c => c.sourcePath)))`: the distinct source
      paths in order of first occurrence. */
  function SourcePaths(chunks: seq<RawChunk>): (r: seq<string>)
    ensures forall i, j :: 0 <= i < j < |r| ==> r[i] != r[j]
    ensures forall i :: 0 <= i < |chunks| ==> chunks[i].sourcePath in r
    ensures forall p :: p in r ==> exists i :: 0 <= i < |chunks| && chunks[i].sourcePath == p
  {
    if chunks == [] then []
    else
      var n := |chunks| - 1;
      var before := SourcePaths(chunks[..n]);
      assert forall i :: 0 <= i < n ==> chunks[..n][i] == chunks[i];
      if chunks[n].sourcePath in before then before else before + [chunks[n].sourcePath]
  }

  /** The insert record of one chunk (`stage ?? null` keeps a null stage null). */
  function ToInsert(c: RawChunk, embedding: Embedding): ChunkInsert {
    ChunkInsert(c.cropId, c.stage, c.lang, c.sourcePath, c.text, embedding)
  }

  /** Embedding every chunk in order; the first provider error ends the loop. */
  function EmbedAll(chunks: seq<RawChunk>, embed: Embedder): Result<seq<ChunkInsert>, string> {
    if chunks == [] then Success([])
    else
      var n := |chunks| - 1;
      match EmbedAll(chunks[..n], embed)
      case Failure(e) => Failure(e)
      case Success(done) =>
        match embed(chunks[n].text)
        case Failure(e) => Failure(e)
        case Success(v) => Success(done + [ToInsert(chunks[n], v)])
  }

  /** A successful embedding gives one record per chunk. */
  lemma {:induction false} EmbedAllLength(chunks: seq<RawChunk>, embed: Embedder)
    ensures EmbedAll(chunks, embed).Success? ==> |EmbedAll(chunks, embed).value| == |chunks|
  {
    if chunks != [] {
      EmbedAllLength(chunks[..|chunks| - 1], embed);
    }
  }

  /** Embedding succeeds exactly when every chunk's embedding does, and then
      yields one record per chunk, in order, carrying the chunk's tags and text. */
  lemma {:induction false} EmbedAllAt(chunks: seq<RawChunk>, embed: Embedder)
    ensures EmbedAll(chunks, embed).Success? <==> forall i :: 0 <= i < |chunks| ==> embed(chunks[i].text).Success?
    ensures EmbedAll(chunks, embed).Success? ==>
              var r := EmbedAll(chunks, embed).value;
              && |r| == |chunks|
              && forall i :: 0 <= i < |chunks| ==> r[i] == ToInsert(chunks[i], embed(chunks[i].text).value)
  {
    if chunks != [] {
      var n := |chunks| - 1;
      EmbedAllAt(chunks[..n], embed);
      assert forall i :: 0 <= i < n ==> chunks[..n][i] == chunks[i];
    }
  }

  /** Once a prefix fails, the whole loop fails with that prefix's error. */
  lemma {:induction false} EmbedAllPrefixFailure(chunks: seq<RawChunk>, i: nat, embed: Embedder)
    requires i <= |chunks|
    requires EmbedAll(chunks[..i], embed).Failure?
    ensures EmbedAll(chunks, embed) == EmbedAll(chunks[..i], embed)
    decreases |chunks| - i
  {
    if i < |chunks| {
      assert chunks[..i + 1][..i] == chunks[..i];
      EmbedAllPrefixFailure(chunks, i + 1, embed);
    } else {
      assert chunks[..i] == chunks;
    }
  }

  /** The "skip if empty, delete by source, embed, insert" part of one seed, for
      its raw chunks. An embedding error comes after the delete and before any
      insert; an empty embedding fails insertChunks after the rows before it
      were inserted. */
  function Reseed(t: Table, raw: seq<RawChunk>, embed: Embedder): (Table, SeedOutcome) {
    if raw == [] then (t, Skipped(NO_CHUNKABLE_TEXT))
    else ResetInsert(t, SourcePaths(raw), EmbedAll(raw, embed))
  }

  /** Delete the rows of `paths`, then insert what the embedding loop gave,
      unless it failed. */
  function ResetInsert(t: Table, paths: seq<string>, embedded: Result<seq<ChunkInsert>, string>): (Table, SeedOutcome) {
    InsertEmbedded(Table(WithoutSources(t.rows, PathSet(paths)), t.nextId), |paths|, embedded)
  }

  /** Insert what the embedding loop gave; an empty embedding fails
      insertChunks after the rows before it were inserted. */
  function InsertEmbedded(t: Table, pathCount: nat, embedded: Result<seq<ChunkInsert>, string>): (Table, SeedOutcome) {
    match embedded
    case Failure(e) => (t, Failed(e))
    case Success(inserts) =>
      var k := FirstEmptyEmbedding(inserts);
      (Table(t.rows + NewRows(inserts[..k], t.nextId), t.nextId + k),
       if k == |inserts| then Inserted(|inserts|, pathCount) else Failed(EMPTY_VECTOR_ERROR))
  }

  /** The effect of one seed on the table, and its outcome. */
  function SeedEffect(t: Table, seed: SeedFile, embed: Embedder): (Table, SeedOutcome) {
    if !HasCropMetadata(seed.doc) then (t, Skipped(MISSING_METADATA)) else Reseed(t, RawChunks(seed), embed)
  }

  /** Unless the seed has no chunk, every source path of its chunks is reset
      first: whatever happens later, the table starts with the old rows of the
      other sources, in their order, and a row survives exactly when no chunk of
      the seed comes from its source. */
  lemma ReseedResetsSources(t: Table, raw: seq<RawChunk>, embed: Embedder, row: StoredRow)
    requires raw != []
    requires row in t.rows
    ensures var kept := WithoutSources(t.rows, PathSet(SourcePaths(raw)));
            && Reseed(t, raw, embed).0.rows[..|kept|] == kept
            && (row in kept <==> forall i :: 0 <= i < |raw| ==> raw[i].sourcePath != row.sourcePath)
  {
    var paths := PathSet(SourcePaths(raw));
    if exists i :: 0 <= i < |raw| && raw[i].sourcePath == row.sourcePath {
      var i :| 0 <= i < |raw| && raw[i].sourcePath == row.sourcePath;
      assert row.sourcePath in paths;
    }
  }

  /** An embedding error leaves the table reset and inserts nothing. */
  lemma ReseedEmbedFailure(t: Table, raw: seq<RawChunk>, embed: Embedder, i: nat)
    requires i < |raw| && embed(raw[i].text).Failure?
    ensures Reseed(t, raw, embed).1.Failed?
    ensures Reseed(t, raw, embed).0 == Table(WithoutSources(t.rows, PathSet(SourcePaths(raw))), t.nextId)
  {
    EmbedAllAt(raw, embed);
  }

  /** A successful seed inserts exactly one row per raw chunk, in order, after
      the rows that survived the reset; each row carries its chunk's crop id,
      stage, language, source path and text, and the provider's embedding. */
  lemma ReseedInsertsEveryChunk(t: Table, raw: seq<RawChunk>, embed: Embedder)
    requires Reseed(t, raw, embed).1.Inserted?
    ensures var after := Reseed(t, raw, embed);
            var kept := WithoutSources(t.rows, PathSet(SourcePaths(raw)));
            && after.1 == Inserted(|raw|, |SourcePaths(raw)|)
            && |after.0.rows| == |kept| + |raw|
            && after.0.rows[..|kept|] == kept
            && after.0.nextId == t.nextId + |raw|
            && forall i :: 0 <= i < |raw| ==>
                 embed(raw[i].text).Success?
                 && after.0.rows[|kept| + i] == Stored(ToInsert(raw[i], embed(raw[i].text).value), t.nextId + i)
  {
    ReseedInsertedShape(t, raw, embed);
    EmbedAllAt(raw, embed);
    var kept := WithoutSources(t.rows, PathSet(SourcePaths(raw)));
    var inserts := EmbedAll(raw, embed).value;
    var rows := kept + NewRows(inserts, t.nextId);
    forall i | 0 <= i < |raw|
      ensures rows[|kept| + i] == Stored(ToInsert(raw[i], embed(raw[i].text).value), t.nextId + i)
    {
      assert rows[|kept| + i] == NewRows(inserts, t.nextId)[i];
    }
    assert rows[..|kept|] == kept;
  }

  /** What a successful reseed leaves: the kept rows, then one new row per
      embedded chunk. */
  lemma ReseedInsertedShape(t: Table, raw: seq<RawChunk>, embed: Embedder)
    requires Reseed(t, raw, embed).1.Inserted?
    ensures raw != [] && EmbedAll(raw, embed).Success?
    ensures |EmbedAll(raw, embed).value| == |raw|
    ensures Reseed(t, raw, embed)
         == (Table(WithoutSources(t.rows, PathSet(SourcePaths(raw))) + NewRows(EmbedAll(raw, embed).value, t.nextId),
                   t.nextId + |raw|),
             Inserted(|raw|, |SourcePaths(raw)|))
  {
    assert raw != [];
    var e := EmbedAll(raw, embed);
    assert Reseed(t, raw, embed) == ResetInsert(t, SourcePaths(raw), e);
    InsertedShape(t, SourcePaths(raw), e);
    EmbedAllLength(raw, embed);
  }

  lemma InsertedShape(t: Table, paths: seq<string>, embedded: Result<seq<ChunkInsert>, string>)
    requires ResetInsert(t, paths, embedded).1.Inserted?
    ensures embedded.Success?
    ensures ResetInsert(t, paths, embedded)
         == (Table(WithoutSources(t.rows, PathSet(paths)) + NewRows(embedded.value, t.nextId),
                   t.nextId + |embedded.value|),
             Inserted(|embedded.value|, |paths|))
  {
    var inserts := embedded.value;
    assert inserts[..|inserts|] == inserts;
  }

  /** Running the same seed again with the same provider gives the same outcome
      and the same table content: re-seeding replaces rather than duplicates. */
  lemma ReseedIdempotent(t: Table, raw: seq<RawChunk>, embed: Embedder)
    requires Reseed(t, raw, embed).1.Inserted?
    ensures var once := Reseed(t, raw, embed);
            var twice := Reseed(once.0, raw, embed);
            twice.1 == once.1 && Contents(twice.0.rows) == Contents(once.0.rows)
  {
    var paths := PathSet(SourcePaths(raw));
    EmbedAllAt(raw, embed);
    var inserts := EmbedAll(raw, embed).value;
    assert inserts[..|inserts|] == inserts;
    forall i | 0 <= i < |inserts| ensures inserts[i].sourcePath in paths {
      assert inserts[i].sourcePath == raw[i].sourcePath;
    }
    var once := Reseed(t, raw, embed);
    assert once.0.rows == Replace(t.rows, paths, inserts, t.nextId);
    ReplaceIdempotent(t.rows, paths, inserts, t.nextId, once.0.nextId);
  }

  /** The companion-file loop of main. */
  method CollectMarkdownChunks(files: seq<MarkdownFile>, cropId: string, lang: string) returns (r: seq<RawChunk>)
    ensures r == MarkdownChunks(files, cropId, lang)
  {
    r := [];
    for i := 0 to |files|
      invariant r == MarkdownChunks(files[..i], cropId, lang)
    {
      var chunks := BuildMarkdownChunks(files[i].content, files[i].path, cropId, lang);
      MarkdownChunksStep(files, i, cropId, lang);
      r := r + chunks;
    }
    assert files[..|files|] == files;
  }

  /** The embedding loop of main: one provider call per chunk, in order. */
  method EmbedChunks(raw: seq<RawChunk>, embed: Embedder) returns (r: Result<seq<ChunkInsert>, string>)
    ensures r == EmbedAll(raw, embed)
  {
    var inserts: seq<ChunkInsert> := [];
    for i := 0 to |raw|
      invariant EmbedAll(raw[..i], embed) == Success(inserts)
    {
      assert raw[..i + 1][..i] == raw[..i];
      var embedding := embed(raw[i].text);
      if embedding.Failure? {
        EmbedAllPrefixFailure(raw, i + 1, embed);
        return Failure(embedding.error);
      }
      inserts := inserts + [ToInsert(raw[i], embedding.value)];
    }
    assert raw[..|raw|] == raw;
    r := Success(inserts);
  }

  /** The YAML chunks followed by the companion chunks of a seed with metadata. */
  method CollectRawChunks(seed: SeedFile) returns (raw: seq<RawChunk>)
    requires HasCropMetadata(seed.doc)
    ensures raw == RawChunks(seed)
  {
    var doc := seed.doc.value;
    var crop := doc.crop.value;
    var yamlChunks := BuildChunksFromSeed(doc, seed.path);
    var mdChunks := CollectMarkdownChunks(seed.companions, crop.id.value, crop.lang.GetOr("en"));
    raw := yamlChunks + mdChunks;
  }

  /** Skip if empty, reset the sources, embed every chunk, insert. */
  method ReseedChunks(table: RagTable, rawChunks: seq<RawChunk>, embed: Embedder) returns (outcome: SeedOutcome)
    requires table.Valid()
    modifies table
    ensures table.Valid()
    ensures (Table(table.rows, table.nextId), outcome) == Reseed(Table(old(table.rows), old(table.nextId)), rawChunks, embed)
  {
    if rawChunks == [] {
      outcome := Skipped(NO_CHUNKABLE_TEXT);
    } else {
      var sourcePaths := SourcePaths(rawChunks);
      table.ResetChunksForSources(sourcePaths);
      var inserts := EmbedChunks(rawChunks, embed);
      outcome := InsertChunksOf(table, |sourcePaths|, inserts);
    }
  }

  /** The insert at the end of a reseed, when the embedding loop succeeded. */
  method InsertChunksOf(table: RagTable, pathCount: nat, embedded: Result<seq<ChunkInsert>, string>)
    returns (outcome: SeedOutcome)
    requires table.Valid()
    modifies table
    ensures table.Valid()
    ensures (Table(table.rows, table.nextId), outcome)
         == InsertEmbedded(Table(old(table.rows), old(table.nextId)), pathCount, embedded)
  {
    if embedded.Failure? {
      outcome := Failed(embedded.error);
    } else {
      var inserted := table.InsertChunks(embedded.value);
      outcome := if inserted.Failure? then Failed(inserted.error) else Inserted(|embedded.value|, pathCount);
    }
  }

  /** One iteration of main's loop over the seed files. A seed without crop id
      or variety is skipped, and so is one without any chunk; neither changes
      the table. */
  method SeedOne(table: RagTable, seed: SeedFile, embed: Embedder) returns (outcome: SeedOutcome)
    requires table.Valid()
    modifies table
    ensures table.Valid()
    ensures (Table(table.rows, table.nextId), outcome)
         == SeedEffect(Table(old(table.rows), old(table.nextId)), seed, embed)
    ensures !HasCropMetadata(seed.doc) ==> outcome == Skipped(MISSING_METADATA) && unchanged(table)
    ensures HasCropMetadata(seed.doc) && RawChunks(seed) == [] ==> outcome == Skipped(NO_CHUNKABLE_TEXT)
    ensures HasCropMetadata(seed.doc) && RawChunks(seed) == [] ==>
              table.rows == old(table.rows) && table.nextId == old(table.nextId)
  {
    if !HasCropMetadata(seed.doc) {
      return Skipped(MISSING_METADATA);
    }
    var rawChunks := CollectRawChunks(seed);
    outcome := ReseedChunks(table, rawChunks, embed);
    if rawChunks == [] {
      assert Reseed(Table(old(table.rows), old(table.nextId)), rawChunks, embed)
          == (Table(old(table.rows), old(table.nextId)), Skipped(NO_CHUNKABLE_TEXT));
    }
  }

  /** main's loop: the seeds in order; a failed seed aborts the run and leaves
      the later seeds unprocessed. */
  function SeedAll(t: Table, seeds: seq<SeedFile>, embed: Embedder): (r: (Table, RunOutcome))
    ensures r.1 == Completed || r.1.Aborted?
  {
    if seeds == [] then (t, Completed)
    else
      var n := |seeds| - 1;
      var before := SeedAll(t, seeds[..n], embed);
      if before.1.Aborted? then before
      else
        var step := SeedEffect(before.0, seeds[n], embed);
        (step.0, if step.1.Failed? then Aborted(step.1.error) else Completed)
  }

  /** After an abort, further seeds change nothing. */
  lemma {:induction false} SeedAllStopsAtFailure(t: Table, seeds: seq<SeedFile>, more: seq<SeedFile>, embed: Embedder)
    requires SeedAll(t, seeds, embed).1.Aborted?
    ensures SeedAll(t, seeds + more, embed) == SeedAll(t, seeds, embed)
    decreases |more|
  {
    if more == [] {
      assert seeds + more == seeds;
    } else {
      var n := |more| - 1;
      assert (seeds + more)[..|seeds + more| - 1] == seeds + more[..n];
      SeedAllStopsAtFailure(t, seeds, more[..n], embed);
    }
  }

  /** A run that aborted within its first `n` seeds ends the same way. */
  lemma SeedAllAbortedPrefix(t: Table, seeds: seq<SeedFile>, n: nat, embed: Embedder)
    requires n <= |seeds|
    requires SeedAll(t, seeds[..n], embed).1.Aborted?
    ensures SeedAll(t, seeds, embed) == SeedAll(t, seeds[..n], embed)
  {
    SeedAllStopsAtFailure(t, seeds[..n], seeds[n..], embed);
    assert seeds[..n] + seeds[n..] == seeds;
  }

  /** Seeds that are all skipped leave the table unchanged. */
  lemma {:induction false} SeedAllSkipped(t: Table, seeds: seq<SeedFile>, embed: Embedder)
    requires forall i :: 0 <= i < |seeds| ==> !HasCropMetadata(seeds[i].doc)
    ensures SeedAll(t, seeds, embed) == (t, Completed)
  {
    if seeds != [] {
      var n := |seeds| - 1;
      SeedAllSkipped(t, seeds[..n], embed);
    }
  }

  /** One turn of main's loop, stated against the run so far. */
  method SeedNext(table: RagTable, ghost t0: Table, seeds: seq<SeedFile>, i: nat, embed: Embedder)
    returns (outcome: SeedOutcome)
    requires table.Valid() && i < |seeds|
    requires SeedAll(t0, seeds[..i], embed) == (Table(table.rows, table.nextId), Completed)
    modifies table
    ensures table.Valid()
    ensures SeedAll(t0, seeds[..i + 1], embed)
         == (Table(table.rows, table.nextId), if outcome.Failed? then Aborted(outcome.error) else Completed)
  {
    assert seeds[..i + 1][..i] == seeds[..i];
    outcome := SeedOne(table, seeds[i], embed);
  }

  /** main: warns and stops when no seed file exists; otherwise processes every
      seed in order until one fails. */
  method Seed(table: RagTable, seeds: seq<SeedFile>, embed: Embedder) returns (outcome: RunOutcome)
    requires table.Valid()
    modifies table
    ensures table.Valid()
    ensures seeds == [] ==> outcome == NoSeeds && table.rows == old(table.rows) && table.nextId == old(table.nextId)
    ensures seeds != [] ==>
              (Table(table.rows, table.nextId), outcome) == SeedAll(Table(old(table.rows), old(table.nextId)), seeds, embed)
  {
    if seeds == [] {
      return NoSeeds;
    }
    ghost var t0 := Table(table.rows, table.nextId);
    for i := 0 to |seeds|
      invariant table.Valid()
      invariant SeedAll(t0, seeds[..i], embed) == (Table(table.rows, table.nextId), Completed)
    {
      var result := SeedNext(table, t0, seeds, i, embed);
      if result.Failed? {
        SeedAllAbortedPrefix(t0, seeds, i + 1, embed);
        return Aborted(result.error);
      }
    }
    assert seeds[..|seeds|] == seeds;
    return Completed;
  }
}
