/** Retrieval (backend/src/services/rag.ts): the question is embedded once and
    the chunk table is asked for the nearest rows of one crop, language and
    stage. The environment is a parameter; `undefined` and `null` are both the
    `None` of an Option, so `stage ?? null` needs no separate step. */
module Rag {
  import opened Common
  import opened VectorStore

  /** The environment variables the module reads: RAG_TOP_K and VECTOR_STORE. */
  datatype Env = Env(ragTopK: Option<string>, vectorStore: Option<string>)

  const DEFAULT_TOP_K: nat := 8

  /** A retrieved chunk (RagChunk): the search row without its embedding. */
  datatype RagChunk = RagChunk(
    id: string, cropId: string, stage: Option<string>, lang: string,
    sourcePath: string, chunk: string, score: Option<real>)

  /** defaultTopK: RAG_TOP_K converted by Number, or 8 when unset. */
  function DefaultTopK(ragTopK: Option<string>): JsNumber {
    if ragTopK.None? then Finite(DEFAULT_TOP_K as real) else NumberOf(ragTopK.value)
  }

  /** The limit handed to the search: `topK ?? defaultTopK`. */
  function SearchLimit(topK: Option<JsNumber>, env: Env): JsNumber {
    topK.GetOr(DefaultTopK(env.ragTopK))
  }

  /** Without RAG_TOP_K the default limit is 8. */
  lemma DefaultTopKUnset()
    ensures LimitParameter(DefaultTopK(None)) == Success(DEFAULT_TOP_K)
  {
  }

  /** A decimal RAG_TOP_K sets the default limit to its value. */
  lemma DefaultTopKOfNat(n: nat)
    ensures LimitParameter(DefaultTopK(Some(NatToString(n)))) == Success(n)
  {
    NumberOfNatString(n);
  }

  /** A blank RAG_TOP_K is the number 0, so every search returns nothing. */
  lemma DefaultTopKBlank(s: string)
    requires IsBlank(s)
    ensures LimitParameter(DefaultTopK(Some(s))) == Success(0)
  {
    NumberOfBlank(s);
  }

  /** isVectorStoreEnabled: VECTOR_STORE, lower-cased, is "pgvector" (the default). */
  predicate IsVectorStoreEnabled(env: Env) {
    ToLower(env.vectorStore.GetOr("pgvector")) == "pgvector"
  }

  /** The store is enabled exactly when VECTOR_STORE is unset or spells
      "pgvector" with each letter in either case. */
  lemma VectorStoreEnabledIff(env: Env)
    ensures IsVectorStoreEnabled(env) <==>
              env.vectorStore.None? ||
              (|env.vectorStore.value| == 8 &&
               forall i :: 0 <= i < 8 ==>
                 env.vectorStore.value[i] == "pgvector"[i] || env.vectorStore.value[i] == "PGVECTOR"[i])
  {
    if env.vectorStore.Some? {
      var s := env.vectorStore.value;
      if |s| == 8 {
        if forall i :: 0 <= i < 8 ==> s[i] == "pgvector"[i] || s[i] == "PGVECTOR"[i] {
          assert ToLower(s) == "pgvector";
        }
        if ToLower(s) == "pgvector" {
          forall i | 0 <= i < 8
            ensures s[i] == "pgvector"[i] || s[i] == "PGVECTOR"[i]
          {
            assert LowerChar(s[i]) == "pgvector"[i];
          }
        }
      }
    }
  }

  /** mapRow: copies the fields of a search row; the score is kept only when
      the driver produced a number. */
  function MapRow(row: ChunkRow): (c: RagChunk)
    ensures c.id == row.id && c.cropId == row.cropId && c.stage == row.stage && c.lang == row.lang
    ensures c.sourcePath == row.sourcePath && c.chunk == row.chunk && c.score == row.score
  {
    RagChunk(row.id, row.cropId, row.stage, row.lang, row.sourcePath, row.chunk, row.score)
  }

  /** `rows.map(mapRow)`. */
  function MapRows(rows: seq<ChunkRow>): (r: seq<RagChunk>)
    ensures |r| == |rows| && forall i :: 0 <= i < |rows| ==> r[i] == MapRow(rows[i])
  {
    seq(|rows|, i requires 0 <= i < |rows| => MapRow(rows[i]))
  }

  /** retrieveChunks: one embedding of the query, then the search with
      `topK ?? defaultTopK`; an error of either step is the call's error. */
  function RetrieveChunks(table: RagTable, env: Env, embed: Embedder, distance: Distance,
                          query: string, cropId: string, lang: string, stage: Option<string>,
                          topK: Option<JsNumber>): (r: Result<seq<RagChunk>, string>)
    reads table
    ensures embed(query).Failure? ==> r == Failure(embed(query).error)
    ensures embed(query).Success? ==>
              var rows := table.SearchChunks(embed(query).value, cropId, lang, stage,
                                             SearchLimit(topK, env), distance);
              && (r.Success? <==> rows.Success?)
              && (rows.Failure? ==> r == Failure(rows.error))
              && (r.Success? ==> r.value == MapRows(rows.value))
    ensures r.Success? ==> forall i :: 0 <= i < |r.value| ==>
              r.value[i].cropId == cropId && r.value[i].lang == lang
              && (stage.None? || r.value[i].stage == stage || r.value[i].stage.None?)
    ensures r.Success? ==> |r.value| as real <= SearchLimit(topK, env).r
  {
    match embed(query)
    case Failure(e) => Failure(e)
    case Success(embedding) =>
      match table.SearchChunks(embedding, cropId, lang, stage, SearchLimit(topK, env), distance)
      case Failure(e) => Failure(e)
      case Success(rows) => Success(MapRows(rows))
  }

  /** The embedder is consulted on the query alone: two embedders that agree
      on it give the same retrieval. */
  lemma RetrieveUsesQueryEmbedding(table: RagTable, env: Env, embed1: Embedder, embed2: Embedder,
                                   distance: Distance, query: string, cropId: string, lang: string,
                                   stage: Option<string>, topK: Option<JsNumber>)
    requires embed1(query) == embed2(query)
    ensures RetrieveChunks(table, env, embed1, distance, query, cropId, lang, stage, topK)
         == RetrieveChunks(table, env, embed2, distance, query, cropId, lang, stage, topK)
  {
  }

  /** With neither topK nor RAG_TOP_K a retrieval returns at most 8 chunks, and
      the search does not fail on its limit. */
  lemma RetrieveDefaultAtMostEight(table: RagTable, embed: Embedder, distance: Distance,
                                   query: string, cropId: string, lang: string, stage: Option<string>,
                                   vectorStore: Option<string>)
    requires embed(query).Success? && embed(query).value != []
    ensures var r := RetrieveChunks(table, Env(None, vectorStore), embed, distance, query, cropId, lang, stage, None);
            r.Success? && |r.value| <= DEFAULT_TOP_K
  {
  }

  /** Retrieval keeps the search order: scores never increase along the result. */
  lemma RetrieveOrderedByScore(table: RagTable, env: Env, embed: Embedder, distance: Distance,
                               query: string, cropId: string, lang: string, stage: Option<string>,
                               topK: Option<JsNumber>, i: nat, j: nat)
    requires var r := RetrieveChunks(table, env, embed, distance, query, cropId, lang, stage, topK);
             r.Success? && i < j < |r.value|
    ensures var r := RetrieveChunks(table, env, embed, distance, query, cropId, lang, stage, topK);
            r.value[i].score.Some? && r.value[j].score.Some? && r.value[j].score.value <= r.value[i].score.value
  {
  }
}
