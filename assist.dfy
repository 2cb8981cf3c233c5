/** Answer assembly (backend/src/services/assist.ts): resolves the greenhouse's
    crop, language and stage, retrieves chunks, and either answers with the
    fixed fallback or asks the chat provider with a numbered sources block and
    a greenhouse snapshot. The greenhouse record, the stored telemetry, the
    chat provider and the rendering of numbers are parameters. */
module Assist {
  import opened Common
  import opened VectorStore
  import opened Rag

  /** The greenhouse configuration fields the assistant reads; the optional
      ones may be absent from a stored record. */
  datatype Greenhouse = Greenhouse(
    id: string, name: string, growMethod: string, plantType: string,
    cropId: Option<string>, variety: Option<string>,
    language: Option<string>, growthStage: Option<string>)

  datatype AssistContext = AssistContext(
    greenhouse: Greenhouse, cropId: string, lang: string, stage: Option<string>)

  datatype AnswerMeta = AnswerMeta(cropId: string, lang: string, stage: Option<string>)

  datatype AssistantAnswer = AssistantAnswer(message: string, sources: seq<RagChunk>, meta: AnswerMeta)

  /** The chat provider's `complete({system, user})`: the completion, or the
      error it throws. */
  type Completer = (string, string) -> Result<string, string>

  const UNKNOWN_CROP := "unknown"
  const FALLBACK_MESSAGE :=
    "I do not have enough seed data for this crop yet. Please add notes under data/rag and re-run the seeder."
  const NO_TELEMETRY := "No telemetry samples recorded yet."
  const EM_DASH := "\U{2014}"
  const DEGREE := "\U{00B0}"
  /** The five guardrail lines of the system prompt, joined by newlines. */
  const GUARDRAILS :=
    "You are the Tiny Greenhouse assistant.\n"
    + "Guardrails:\n"
    + "- Use only the provided " + "SOURCES and SNAPSHOT.\n"
    + "- If the answer is not supported by SOURCES, reply that there is not enough data and suggest a next step.\n"
    + "- Prefer concise, actionable responses; include short rationales for warnings or changes."
  const CLOSING := "If SOURCES cannot answer the question, say so explicitly."

  // ---------------------------------------------------------------------------
  // Context

  /** sanitizeCropId: the trimmed value when it is not blank, else "unknown". */
  function SanitizeCropId(value: Option<string>): (r: string)
    ensures NonBlank(value) ==> r == Trim(value.value)
    ensures !NonBlank(value) ==> r == UNKNOWN_CROP
    ensures r != "" && Trim(r) == r
  {
    if NonBlank(value) then
      TrimIdempotent(value.value);
      Trim(value.value)
    else
      TrimOfUnpadded(UNKNOWN_CROP);
      UNKNOWN_CROP
  }

  /** Sanitising a sanitised crop id changes nothing. */
  lemma SanitizeCropIdIdempotent(value: Option<string>)
    ensures SanitizeCropId(Some(SanitizeCropId(value))) == SanitizeCropId(value)
  {
  }

  /** resolveAssistContext: the crop is the sanitised `cropId ?? plantType`, the
      language defaults to "en" and the stage to null. */
  function ResolveAssistContext(g: Greenhouse): (c: AssistContext)
    ensures c.greenhouse == g
    ensures c.cropId != "" && Trim(c.cropId) == c.cropId
    ensures c.lang == (if g.language.Some? then g.language.value else "en")
    ensures c.stage == g.growthStage
  {
    AssistContext(g, SanitizeCropId(Some(g.cropId.GetOr(g.plantType))), g.language.GetOr("en"), g.growthStage)
  }

  /** `??` falls back only on an absent crop id: a blank one is not replaced by
      the plant type and becomes "unknown". */
  lemma ResolveBlankCropIdIsUnknown(g: Greenhouse)
    requires g.cropId.Some? && IsBlank(g.cropId.value)
    ensures ResolveAssistContext(g).cropId == UNKNOWN_CROP
  {
  }

  /** Without a crop id the trimmed plant type is the crop, unless it is blank. */
  lemma ResolvePlantTypeFallback(g: Greenhouse)
    requires g.cropId.None?
    ensures ResolveAssistContext(g).cropId == (if IsBlank(g.plantType) then UNKNOWN_CROP else Trim(g.plantType))
  {
  }

  function Meta(ctx: AssistContext): AnswerMeta {
    AnswerMeta(ctx.cropId, ctx.lang, ctx.stage)
  }

  /** The answer when retrieval finds nothing. */
  function FallbackAnswer(ctx: AssistContext): AssistantAnswer {
    AssistantAnswer(FALLBACK_MESSAGE, [], Meta(ctx))
  }

  // ---------------------------------------------------------------------------
  // Snapshot

  /** The four lines that open every snapshot. */
  function SnapshotHead(ctx: AssistContext): seq<string> {
    var g := ctx.greenhouse;
    [ "Greenhouse: " + g.name + " (" + g.id + ")",
      "Crop: " + ctx.cropId + (if Truthy(g.variety) then " / " + g.variety.value else ""),
      "Stage: " + ctx.stage.GetOr("unspecified"),
      "Method: " + g.growMethod ]
  }

  /** The four lines describing a sample; `render` is JavaScript's number to
      string conversion. */
  function TelemetryLines(t: TelemetrySample, render: real -> string): seq<string> {
    [ "Latest telemetry @ " + t.timestamp,
      "Temperature: " + render(t.temperature) + DEGREE + "C",
      "Humidity: " + render(t.humidity) + "%",
      "Soil moisture: " + render(t.soilMoisture) + "%" ]
  }

  /** The snapshot lines: the head, then the telemetry lines of the latest
      sample or the single "no samples" line. */
  function Snapshot(ctx: AssistContext, latest: Option<TelemetrySample>, render: real -> string): (lines: seq<string>)
    ensures |lines| == if latest.Some? then 8 else 5
    ensures lines[..4] == SnapshotHead(ctx)
    ensures latest.Some? ==> lines[4..] == TelemetryLines(latest.value, render)
    ensures NO_TELEMETRY in lines <==> latest.None?
  {
    var head := SnapshotHead(ctx);
    assert forall k :: 0 <= k < 4 ==> head[k][0] != NO_TELEMETRY[0];
    if latest.Some? then
      var tail := TelemetryLines(latest.value, render);
      assert forall k :: 0 <= k < 4 ==> tail[k][0] != NO_TELEMETRY[0];
      head + tail
    else head + [NO_TELEMETRY]
  }

  /** Builds the snapshot as the handler does: four lines, then a push of the
      telemetry lines or of the "no samples" line. */
  method BuildSnapshot(ctx: AssistContext, latest: Option<TelemetrySample>, render: real -> string)
    returns (snapshot: seq<string>)
    ensures snapshot == Snapshot(ctx, latest, render)
  {
    var g := ctx.greenhouse;
    snapshot := [
      "Greenhouse: " + g.name + " (" + g.id + ")",
      "Crop: " + ctx.cropId + (if Truthy(g.variety) then " / " + g.variety.value else ""),
      "Stage: " + ctx.stage.GetOr("unspecified"),
      "Method: " + g.growMethod
    ];
    if latest.Some? {
      var t := latest.value;
      snapshot := snapshot + [
        "Latest telemetry @ " + t.timestamp,
        "Temperature: " + render(t.temperature) + DEGREE + "C",
        "Humidity: " + render(t.humidity) + "%",
        "Soil moisture: " + render(t.soilMoisture) + "%"
      ];
    } else {
      snapshot := snapshot + [NO_TELEMETRY];
    }
  }

  // ---------------------------------------------------------------------------
  // Sources block

  /** "Source i — path", numbered from 1, with " (stage)" when the chunk has one. */
  function SourceHeader(idx: nat, c: RagChunk): string {
    "Source " + NatToString(idx + 1) + " " + EM_DASH + " " + c.sourcePath
      + (if Truthy(c.stage) then " (" + c.stage.value + ")" else "")
  }

  function SourceEntry(idx: nat, c: RagChunk): string {
    SourceHeader(idx, c) + "\n" + c.chunk
  }

  /** One entry per chunk, in retrieval order. */
  function SourceEntries(chunks: seq<RagChunk>): (r: seq<string>)
    ensures |r| == |chunks| && forall i :: 0 <= i < |chunks| ==> r[i] == SourceEntry(i, chunks[i])
  {
    seq(|chunks|, i requires 0 <= i < |chunks| => SourceEntry(i, chunks[i]))
  }

  function SourcesBlock(chunks: seq<RagChunk>): string {
    Join(SourceEntries(chunks), "\n\n")
  }

  /** The number an entry's header carries: the digits after "Source " up to
      the next space. */
  function SourceNumber(entry: string): Option<nat> {
    if !StartsWith(entry, "Source ") then None
    else
      var rest := entry[7..];
      var k := IndexOf(rest, ' ');
      if k > 0 && AllDigits(rest[..k]) then Some(DigitsValue(rest[..k])) else None
  }

  /** The number is read back from an entry that begins with "Source ",
      digits and a space. */
  lemma SourceNumberOf(e: string, digits: string)
    requires digits != [] && AllDigits(digits)
    requires StartsWith(e, "Source " + digits + " ")
    ensures SourceNumber(e) == Some(DigitsValue(digits))
  {
    var p := "Source " + digits + " ";
    assert e[..|p|] == p;
    assert e[..7] == p[..7] == "Source ";
    var rest := e[7..];
    assert forall j :: 0 <= j < |digits| ==> rest[j] == p[7 + j] == digits[j];
    assert rest[|digits|] == p[7 + |digits|] == ' ';
    assert IndexOf(rest, ' ') == |digits|;
    assert rest[..|digits|] == digits;
  }

  /** The i-th entry is numbered i + 1 and names its chunk's source path. */
  lemma SourceEntryNumbered(chunks: seq<RagChunk>, i: nat)
    requires i < |chunks|
    ensures SourceNumber(SourceEntries(chunks)[i]) == Some(i + 1)
    ensures StartsWith(SourceEntries(chunks)[i], "Source " + NatToString(i + 1) + " " + EM_DASH + " " + chunks[i].sourcePath)
  {
    var c := chunks[i];
    var d := NatToString(i + 1);
    var q := "Source " + d + " ";
    var p := q + EM_DASH + " " + c.sourcePath;
    var suffix := if Truthy(c.stage) then " (" + c.stage.value + ")" else "";
    PrefixOfConcat(p, suffix);
    StartsWithAppend(p + suffix, p, "\n");
    StartsWithAppend(p + suffix + "\n", p, c.chunk);
    assert SourceEntries(chunks)[i] == p + suffix + "\n" + c.chunk;
    PrefixOfConcat(q, EM_DASH);
    StartsWithAppend(q + EM_DASH, q, " ");
    StartsWithAppend(q + EM_DASH + " ", q, c.sourcePath);
    StartsWithTrans(SourceEntries(chunks)[i], p, q);
    SourceNumberOf(SourceEntries(chunks)[i], d);
    NatToStringRoundTrip(i + 1);
  }

  // ---------------------------------------------------------------------------
  // Prompts

  /** The system prompt: the guardrail lines, then the reply language. */
  function SystemPrompt(lang: string): (p: string)
    ensures StartsWith(p, GUARDRAILS + "\n")
    ensures EndsWith(p, "\nRespond in " + ToUpper(lang) + ".")
  {
    var p := GUARDRAILS + "\nRespond in " + ToUpper(lang) + ".";
    LanguageLine(GUARDRAILS, ToUpper(lang));
    p
  }

  /** The head of a prompt is followed by a newline; its last line names the
      language. */
  lemma LanguageLine(head: string, upper: string)
    ensures StartsWith(head + "\nRespond in " + upper + ".", head + "\n")
    ensures EndsWith(head + "\nRespond in " + upper + ".", "\nRespond in " + upper + ".")
  {
    var p := head + "\nRespond in " + upper + ".";
    assert p[..|head| + 1] == head + "\n";
    assert p[|head|..] == "\nRespond in " + upper + ".";
  }

  /** Two system prompts are the same exactly when the upper-cased languages are. */
  lemma SystemPromptDeterminesLanguage(lang1: string, lang2: string)
    ensures SystemPrompt(lang1) == SystemPrompt(lang2) <==> ToUpper(lang1) == ToUpper(lang2)
  {
    if SystemPrompt(lang1) == SystemPrompt(lang2) {
      MiddleDetermined(GUARDRAILS + "\nRespond in ", ToUpper(lang1), ToUpper(lang2), ".");
    }
  }

  /** Equal strings with the same head and tail have the same middle. */
  lemma MiddleDetermined(head: string, m1: string, m2: string, tail: string)
    requires head + m1 + tail == head + m2 + tail
    ensures m1 == m2
  {
    assert |m1| == |m2|;
    forall k | 0 <= k < |m1|
      ensures m1[k] == m2[k]
    {
      assert (head + m1 + tail)[|head| + k] == m1[k];
      assert (head + m2 + tail)[|head| + k] == m2[k];
    }
  }

  /** The user prompt: the trimmed question, the sources, the snapshot and the
      closing instruction, as blocks separated by blank lines. */
  function UserPrompt(message: string, chunks: seq<RagChunk>, snapshot: seq<string>): (p: string)
    ensures p == "User question:\n" + Trim(message) + "\n\n" + "SOURCES:" + "\n\n" + SourcesBlock(chunks)
                 + "\n\n" + "SNAPSHOT:" + "\n\n" + Join(snapshot, "\n") + "\n\n" + CLOSING
  {
    JoinSix("User question:\n" + Trim(message), "SOURCES:", SourcesBlock(chunks),
            "SNAPSHOT:", Join(snapshot, "\n"), CLOSING, "\n\n");
    var blocks := ["User question:\n" + Trim(message), "SOURCES:", SourcesBlock(chunks),
                   "SNAPSHOT:", Join(snapshot, "\n"), CLOSING];
    Join(blocks, "\n\n")
  }

  // ---------------------------------------------------------------------------
  // The answer

  /** The chat provider's reply to the prompts built from the context, the
      retrieved chunks, the latest sample and the question. */
  function Completion(complete: Completer, render: real -> string, ctx: AssistContext,
                      chunks: seq<RagChunk>, samples: seq<TelemetrySample>, message: string): Result<string, string> {
    complete(SystemPrompt(ctx.lang), UserPrompt(message, chunks, Snapshot(ctx, LatestTelemetry(samples), render)))
  }

  /** The non-empty path of buildAssistantAnswer: the snapshot, the prompts and
      one call to the chat provider. */
  method AnswerWithSources(complete: Completer, render: real -> string, ctx: AssistContext,
                           chunks: seq<RagChunk>, samples: seq<TelemetrySample>, message: string)
    returns (answer: Result<AssistantAnswer, string>)
    ensures var c := Completion(complete, render, ctx, chunks, samples, message);
            answer == if c.Success? then Success(AssistantAnswer(c.value, chunks, Meta(ctx))) else Failure(c.error)
  {
    var snapshot := BuildSnapshot(ctx, LatestTelemetry(samples), render);
    var completion := complete(SystemPrompt(ctx.lang), UserPrompt(message, chunks, snapshot));
    if completion.Failure? {
      answer := Failure(completion.error);
    } else {
      answer := Success(AssistantAnswer(completion.value, chunks, Meta(ctx)));
    }
  }

  /** buildAssistantAnswer. The question is retrieved untrimmed with the
      default topK; no chunks give the fallback answer without consulting the
      chat provider; otherwise the provider's completion is the message and the
      chunks are the sources. A failing retrieval or provider is the error. */
  method BuildAssistantAnswer(table: RagTable, env: Env, embed: Embedder, distance: Distance,
                              complete: Completer, render: real -> string,
                              greenhouse: Greenhouse, samples: seq<TelemetrySample>, message: string)
    returns (answer: Result<AssistantAnswer, string>)
    ensures var ctx := ResolveAssistContext(greenhouse);
            var retrieved := RetrieveChunks(table, env, embed, distance, message, ctx.cropId, ctx.lang, ctx.stage, None);
            && (retrieved.Failure? ==> answer == Failure(retrieved.error))
            && (retrieved.Success? && retrieved.value == [] ==> answer == Success(FallbackAnswer(ctx)))
            && (retrieved.Success? && retrieved.value != [] ==>
                  var c := Completion(complete, render, ctx, retrieved.value, samples, message);
                  answer == if c.Success? then Success(AssistantAnswer(c.value, retrieved.value, Meta(ctx)))
                            else Failure(c.error))
    ensures answer.Success? ==> answer.value.meta == Meta(ResolveAssistContext(greenhouse))
    ensures answer.Success? && answer.value.sources == [] ==> answer.value.message == FALLBACK_MESSAGE
    ensures answer.Success? ==> forall i :: 0 <= i < |answer.value.sources| ==>
              answer.value.sources[i].cropId == ResolveAssistContext(greenhouse).cropId
              && answer.value.sources[i].lang == ResolveAssistContext(greenhouse).lang
  {
    var ctx := ResolveAssistContext(greenhouse);
    var retrieved := RetrieveChunks(table, env, embed, distance, message, ctx.cropId, ctx.lang, ctx.stage, None);
    if retrieved.Failure? {
      answer := Failure(retrieved.error);
    } else if retrieved.value == [] {
      answer := Success(FallbackAnswer(ctx));
    } else {
      answer := AnswerWithSources(complete, render, ctx, retrieved.value, samples, message);
    }
  }
}
