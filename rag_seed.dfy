/** The RAG seeder (backend/src/scripts/rag-seed.ts): paragraph chunking,
    turning a crop seed document into tagged chunks, and the per-seed
    skip / delete-by-source / embed / insert run against the chunk table.
    Directory listing, file reads and YAML parsing are inputs to the model. */
module RagSeed {
  import opened Common
  import opened VectorStore

  const MAX_CHARS := 900
  const PARAGRAPH_SEP := "\n\n"

  // ---------------------------------------------------------------------------
  // Paragraphs

  /** `text.replace(/\r\n/g, '\n')` */
  function NormalizeNewlines(s: string): (r: string)
    ensures IsBlank(r) <==> IsBlank(s)
    decreases |s|
  {
    if s == [] then []
    else if |s| >= 2 && s[0] == '\r' && s[1] == '\n' then
      var rest := NormalizeNewlines(s[2..]);
      assert s == [s[0]] + ([s[1]] + s[2..]);
      BlankCons(s[1], s[2..]);
      BlankCons(s[0], [s[1]] + s[2..]);
      BlankCons('\n', rest);
      ['\n'] + rest
    else
      var rest := NormalizeNewlines(s[1..]);
      assert s == [s[0]] + s[1..];
      BlankCons(s[0], s[1..]);
      BlankCons(s[0], rest);
      [s[0]] + rest
  }

  /** Drops a leading run of line feeds. */
  function DropNewlines(s: string): (r: string)
    ensures |r| <= |s| && r == s[|s| - |r|..]
    ensures s != [] && s[0] == '\n' ==> |r| < |s|
    ensures forall i :: 0 <= i < |s| - |r| ==> s[i] == '\n'
  {
    if s != [] && s[0] == '\n' then DropNewlines(s[1..]) else s
  }

  /** `s.split(/\n{2,}/)`: cuts at every run of two or more line feeds. */
  function SplitBlankLines(s: string): (r: seq<string>)
    ensures |r| >= 1
    decreases |s|
  {
    if s == [] then [""]
    else if |s| >= 2 && s[0] == '\n' && s[1] == '\n' then [""] + SplitBlankLines(DropNewlines(s))
    else
      var rest := SplitBlankLines(s[1..]);
      [[s[0]] + rest[0]] + rest[1..]
  }

  /** Every non-space character of `s` lands in one of the parts: given its
      index `i`, returns the part `k` and the index `j` in that part. */
  lemma {:induction false} SplitBlankLinesKeepsText(s: string, i: nat) returns (k: nat, j: nat)
    requires i < |s| && !IsSpace(s[i])
    ensures k < |SplitBlankLines(s)| && j < |SplitBlankLines(s)[k]|
    ensures !IsSpace(SplitBlankLines(s)[k][j])
    decreases |s|, 1
  {
    if |s| >= 2 && s[0] == '\n' && s[1] == '\n' {
      k, j := SplitAtBlankLineKeepsText(s, i);
    } else if i == 0 {
      k, j := 0, 0;
    } else {
      var r := SplitBlankLines(s);
      var rest := SplitBlankLines(s[1..]);
      assert r == [[s[0]] + rest[0]] + rest[1..];
      assert s[1..][i - 1] == s[i];
      var k', j' := SplitBlankLinesKeepsText(s[1..], i - 1);
      if k' == 0 {
        k, j := 0, j' + 1;
        assert r[0][j] == rest[0][j'];
      } else {
        k, j := k', j';
        assert r[k] == rest[k'];
      }
    }
  }

  lemma {:induction false} SplitAtBlankLineKeepsText(s: string, i: nat) returns (k: nat, j: nat)
    requires i < |s| && !IsSpace(s[i])
    requires |s| >= 2 && s[0] == '\n' && s[1] == '\n'
    ensures k < |SplitBlankLines(s)| && j < |SplitBlankLines(s)[k]|
    ensures !IsSpace(SplitBlankLines(s)[k][j])
    decreases |s|, 0
  {
    var t := DropNewlines(s);
    var off := |s| - |t|;
    NotSpaceNotNewline(s[i]);
    DropNewlinesKeeps(s, i);
    assert t == s[off..];
    assert t[i - off] == s[i];
    var k', j' := SplitBlankLinesKeepsText(t, i - off);
    SplitAtBlank(s);
    k, j := k' + 1, j';
  }

  /** At a blank line the first part is empty and the rest are those after it. */
  lemma SplitAtBlank(s: string)
    requires |s| >= 2 && s[0] == '\n' && s[1] == '\n'
    ensures |SplitBlankLines(s)| == |SplitBlankLines(DropNewlines(s))| + 1
    ensures forall k :: 0 <= k < |SplitBlankLines(DropNewlines(s))| ==>
              SplitBlankLines(s)[k + 1] == SplitBlankLines(DropNewlines(s))[k]
  {
  }

  lemma NotSpaceNotNewline(c: char)
    requires !IsSpace(c)
    ensures c != '\n'
  {
  }

  /** A character other than a line feed is never dropped. */
  lemma {:induction false} DropNewlinesKeeps(s: string, i: nat)
    requires i < |s| && s[i] != '\n'
    ensures i >= |s| - |DropNewlines(s)|
  {
    if s[0] == '\n' {
      assert s[1..][i - 1] == s[i];
      DropNewlinesKeeps(s[1..], i - 1);
    }
  }

  /** `.map((block) => block.trim()).filter(Boolean)` */
  function TrimmedParagraphs(parts: seq<string>): (r: seq<string>)
    ensures forall i :: 0 <= i < |r| ==> r[i] != []
  {
    if parts == [] then []
    else
      var p := Trim(parts[0]);
      (if p == [] then [] else [p]) + TrimmedParagraphs(parts[1..])
  }

  /** A part that is not blank survives trimming and filtering. */
  lemma {:induction false} TrimmedParagraphsKeep(parts: seq<string>, k: nat)
    requires k < |parts| && !IsBlank(parts[k])
    ensures TrimmedParagraphs(parts) != []
  {
    if k > 0 && Trim(parts[0]) == [] {
      assert parts[1..][k - 1] == parts[k];
      TrimmedParagraphsKeep(parts[1..], k - 1);
    }
  }

  /** The trimmed, non-empty paragraphs of `text`, in order. */
  function Paragraphs(text: string): (r: seq<string>)
    ensures forall i :: 0 <= i < |r| ==> r[i] != []
  {
    TrimmedParagraphs(SplitBlankLines(Trim(NormalizeNewlines(text))))
  }

  // ---------------------------------------------------------------------------
  // Greedy packing

  /** Whether `p` may join the open group `cur`: the loop's length test. */
  predicate Fits(cur: seq<string>, p: string) {
    |Join(cur, PARAGRAPH_SEP) + PARAGRAPH_SEP + p| <= MAX_CHARS
  }

  /** The greedy grouping of the chunking loop: `cur` is the open buffer's
      paragraphs, `ps` the paragraphs still to read. */
  function Pack(cur: seq<string>, ps: seq<string>): seq<seq<string>>
    decreases |ps|
  {
    if ps == [] then (if cur == [] then [] else [cur])
    else if cur == [] then Pack([ps[0]], ps[1..])
    else if Fits(cur, ps[0]) then Pack(cur + [ps[0]], ps[1..])
    else [cur] + Pack([ps[0]], ps[1..])
  }

  function Flatten(gs: seq<seq<string>>): seq<string> {
    if gs == [] then [] else gs[0] + Flatten(gs[1..])
  }

  function JoinEach(gs: seq<seq<string>>): (r: seq<string>)
    ensures |r| == |gs|
    ensures forall i :: 0 <= i < |gs| ==> r[i] == Join(gs[i], PARAGRAPH_SEP)
  {
    seq(|gs|, i requires 0 <= i < |gs| => Join(gs[i], PARAGRAPH_SEP))
  }

  /** The paragraphs of each chunk. */
  function ChunkGroups(text: string): seq<seq<string>> {
    Pack([], Paragraphs(text))
  }

  /** The chunks chunkText returns for `text`. */
  function Chunks(text: string): seq<string> {
    JoinEach(ChunkGroups(text))
  }

  /** Group `k + 1` starts with a paragraph that did not fit in group `k`. */
  predicate NoRoomBetween(gs: seq<seq<string>>, k: int)
    requires 0 <= k < |gs| - 1
  {
    gs[k + 1] != [] && !Fits(gs[k], gs[k + 1][0])
  }

  lemma {:induction false} PackFlatten(cur: seq<string>, ps: seq<string>)
    ensures Flatten(Pack(cur, ps)) == cur + ps
    decreases |ps|
  {
    if ps == [] {
      if cur != [] {
        assert Flatten([cur]) == cur + Flatten([]);
      }
    } else if cur == [] {
      PackFlatten([ps[0]], ps[1..]);
      assert [ps[0]] + ps[1..] == ps;
    } else if Fits(cur, ps[0]) {
      PackFlatten(cur + [ps[0]], ps[1..]);
      assert cur + [ps[0]] + ps[1..] == cur + ps;
    } else {
      var rest := Pack([ps[0]], ps[1..]);
      PackFlatten([ps[0]], ps[1..]);
      assert ([cur] + rest)[1..] == rest;
      assert [ps[0]] + ps[1..] == ps;
    }
  }

  lemma {:induction false} PackGroupsNonEmpty(cur: seq<string>, ps: seq<string>)
    ensures forall k :: 0 <= k < |Pack(cur, ps)| ==> Pack(cur, ps)[k] != []
    decreases |ps|
  {
    if ps == [] {
    } else if cur == [] {
      PackGroupsNonEmpty([ps[0]], ps[1..]);
    } else if Fits(cur, ps[0]) {
      PackGroupsNonEmpty(cur + [ps[0]], ps[1..]);
    } else {
      PackGroupsNonEmpty([ps[0]], ps[1..]);
      var rest := Pack([ps[0]], ps[1..]);
      assert forall k :: 1 <= k < |[cur] + rest| ==> ([cur] + rest)[k] == rest[k - 1];
    }
  }

  lemma {:induction false} PackHead(cur: seq<string>, ps: seq<string>)
    requires cur != []
    ensures Pack(cur, ps) != [] && Pack(cur, ps)[0] != [] && Pack(cur, ps)[0][0] == cur[0]
    decreases |ps|
  {
    if ps != [] && Fits(cur, ps[0]) {
      PackHead(cur + [ps[0]], ps[1..]);
    }
  }

  /** A group of two or more paragraphs fits in MAX_CHARS once joined. */
  lemma {:induction false} PackBound(cur: seq<string>, ps: seq<string>)
    requires |cur| > 1 ==> |Join(cur, PARAGRAPH_SEP)| <= MAX_CHARS
    ensures forall k :: 0 <= k < |Pack(cur, ps)| && |Pack(cur, ps)[k]| > 1 ==>
              |Join(Pack(cur, ps)[k], PARAGRAPH_SEP)| <= MAX_CHARS
    decreases |ps|
  {
    if ps == [] {
    } else if cur == [] {
      PackBound([ps[0]], ps[1..]);
    } else if Fits(cur, ps[0]) {
      JoinAppend(cur, [ps[0]], PARAGRAPH_SEP);
      PackBound(cur + [ps[0]], ps[1..]);
    } else {
      PackBound([ps[0]], ps[1..]);
      var rest := Pack([ps[0]], ps[1..]);
      assert forall k :: 1 <= k < |[cur] + rest| ==> ([cur] + rest)[k] == rest[k - 1];
    }
  }

  /** No paragraph could have joined the group before it. */
  lemma {:induction false} PackGreedy(cur: seq<string>, ps: seq<string>)
    ensures forall k :: 0 <= k < |Pack(cur, ps)| - 1 ==> NoRoomBetween(Pack(cur, ps), k)
    decreases |ps|
  {
    if ps == [] {
    } else if cur == [] {
      PackGreedy([ps[0]], ps[1..]);
    } else if Fits(cur, ps[0]) {
      PackGreedy(cur + [ps[0]], ps[1..]);
    } else {
      var rest := Pack([ps[0]], ps[1..]);
      var all := [cur] + rest;
      PackGreedy([ps[0]], ps[1..]);
      PackHead([ps[0]], ps[1..]);
      forall k | 0 <= k < |all| - 1 ensures NoRoomBetween(all, k) {
        if k > 0 {
          assert all[k] == rest[k - 1] && all[k + 1] == rest[k];
          assert NoRoomBetween(rest, k - 1);
        }
      }
    }
  }

  lemma {:induction false} JoinEachFlatten(gs: seq<seq<string>>)
    requires forall k :: 0 <= k < |gs| ==> gs[k] != []
    ensures Join(JoinEach(gs), PARAGRAPH_SEP) == Join(Flatten(gs), PARAGRAPH_SEP)
  {
    if |gs| == 1 {
      assert gs[1..] == [];
      assert Flatten(gs) == gs[0] + [] == gs[0];
      assert Join(JoinEach(gs), PARAGRAPH_SEP) == JoinEach(gs)[0];
    } else if |gs| > 1 {
      JoinEachFlatten(gs[1..]);
      assert JoinEach(gs)[1..] == JoinEach(gs[1..]);
      assert gs[1..][0] == gs[1];
      assert Flatten(gs[1..]) == gs[1] + Flatten(gs[2..]) by { assert gs[1..][1..] == gs[2..]; }
      JoinAppend(gs[0], Flatten(gs[1..]), PARAGRAPH_SEP);
    }
  }

  /** An element of a group is an element of the flattened sequence. */
  lemma {:induction false} FlattenMember(gs: seq<seq<string>>, i: nat, j: nat)
    requires i < |gs| && j < |gs[i]|
    ensures gs[i][j] in Flatten(gs)
  {
    if i > 0 {
      FlattenMember(gs[1..], i - 1, j);
    }
  }

  // ---------------------------------------------------------------------------
  // Properties of the chunks of a paragraph list

  /** The chunks of a list of paragraphs. */
  function ChunksOf(ps: seq<string>): seq<string> {
    JoinEach(Pack([], ps))
  }

  lemma ChunksOfPartition(ps: seq<string>)
    ensures Flatten(Pack([], ps)) == ps
    ensures |ChunksOf(ps)| == |Pack([], ps)|
    ensures forall i :: 0 <= i < |Pack([], ps)| ==>
              Pack([], ps)[i] != [] && ChunksOf(ps)[i] == Join(Pack([], ps)[i], PARAGRAPH_SEP)
  {
    PackFlatten([], ps);
    PackGroupsNonEmpty([], ps);
  }

  lemma ChunksOfNonEmpty(ps: seq<string>)
    requires forall i :: 0 <= i < |ps| ==> ps[i] != []
    ensures forall k :: 0 <= k < |ChunksOf(ps)| ==> ChunksOf(ps)[k] != []
  {
    var gs := Pack([], ps);
    ChunksOfPartition(ps);
    forall k | 0 <= k < |gs| ensures Join(gs[k], PARAGRAPH_SEP) != [] {
      FlattenMember(gs, k, 0);
      JoinLength(gs[k], PARAGRAPH_SEP);
    }
  }

  lemma ChunksOfBounded(ps: seq<string>)
    ensures forall i :: 0 <= i < |ChunksOf(ps)| && |Pack([], ps)[i]| > 1 ==> |ChunksOf(ps)[i]| <= MAX_CHARS
    ensures forall i :: 0 <= i < |ChunksOf(ps)| && |ChunksOf(ps)[i]| > MAX_CHARS ==>
              Pack([], ps)[i] == [ChunksOf(ps)[i]] && ChunksOf(ps)[i] in ps
  {
    var gs := Pack([], ps);
    ChunksOfPartition(ps);
    PackBound([], ps);
    forall i | 0 <= i < |gs| && |Join(gs[i], PARAGRAPH_SEP)| > MAX_CHARS
      ensures gs[i] == [Join(gs[i], PARAGRAPH_SEP)] && Join(gs[i], PARAGRAPH_SEP) in ps
    {
      FlattenMember(gs, i, 0);
    }
  }

  lemma ChunksOfRoundTrip(ps: seq<string>)
    ensures Join(ChunksOf(ps), PARAGRAPH_SEP) == Join(ps, PARAGRAPH_SEP)
  {
    ChunksOfPartition(ps);
    JoinEachFlatten(Pack([], ps));
  }

  lemma ChunksOfGreedy(ps: seq<string>)
    ensures forall i :: 0 <= i < |Pack([], ps)| - 1 ==> NoRoomBetween(Pack([], ps), i)
  {
    PackGreedy([], ps);
  }

  // ---------------------------------------------------------------------------
  // Properties of chunkText

  /** The chunks partition the paragraphs into non-empty groups, in order; each
      chunk is its group joined with a blank line. */
  lemma ChunkGroupsPartition(text: string)
    ensures Flatten(ChunkGroups(text)) == Paragraphs(text)
    ensures |Chunks(text)| == |ChunkGroups(text)|
    ensures forall i :: 0 <= i < |ChunkGroups(text)| ==>
              ChunkGroups(text)[i] != [] && Chunks(text)[i] == Join(ChunkGroups(text)[i], PARAGRAPH_SEP)
  {
    var ps := Paragraphs(text);
    ChunksOfPartition(ps);
    assert ChunkGroups(text) == Pack([], ps) && Chunks(text) == ChunksOf(ps);
  }

  lemma ParagraphsOfBlank(text: string)
    requires IsBlank(text)
    ensures Paragraphs(text) == []
  {
    var n := Trim(NormalizeNewlines(text));
    assert n == [];
    ChunksOfEmptyText(text);
  }

  lemma ParagraphsOfText(text: string)
    requires !IsBlank(text)
    ensures Paragraphs(text) != []
  {
    var n := Trim(NormalizeNewlines(text));
    assert n != [] && !IsSpace(n[0]);
    var parts := SplitBlankLines(n);
    var k, j := SplitBlankLinesKeepsText(n, 0);
    assert !IsBlank(parts[k]);
    TrimmedParagraphsKeep(parts, k);
  }

  /** Empty or whitespace-only text gives no chunks, and only such text does. */
  lemma ChunksEmptyIffBlank(text: string)
    ensures Chunks(text) == [] <==> IsBlank(text)
  {
    var ps := Paragraphs(text);
    ChunksOfPartition(ps);
    assert ChunkGroups(text) == Pack([], ps) && Chunks(text) == ChunksOf(ps);
    if IsBlank(text) {
      ParagraphsOfBlank(text);
    } else {
      ParagraphsOfText(text);
    }
  }

  /** Every chunk is non-empty. */
  lemma ChunksNonEmpty(text: string)
    ensures forall i :: 0 <= i < |Chunks(text)| ==> Chunks(text)[i] != []
  {
    var ps := Paragraphs(text);
    ChunksOfNonEmpty(ps);
    assert ChunkGroups(text) == Pack([], ps) && Chunks(text) == ChunksOf(ps);
  }

  /** A multi-paragraph chunk fits in 900 characters, so a longer chunk is a
      single paragraph. */
  lemma ChunksBounded(text: string)
    ensures forall i :: 0 <= i < |Chunks(text)| && |ChunkGroups(text)[i]| > 1 ==> |Chunks(text)[i]| <= MAX_CHARS
    ensures forall i :: 0 <= i < |Chunks(text)| && |Chunks(text)[i]| > MAX_CHARS ==>
              ChunkGroups(text)[i] == [Chunks(text)[i]] && Chunks(text)[i] in Paragraphs(text)
  {
    var ps := Paragraphs(text);
    ChunksOfBounded(ps);
    assert ChunkGroups(text) == Pack([], ps) && Chunks(text) == ChunksOf(ps);
  }

  /** Joining the chunks with a blank line gives back the paragraphs joined
      with a blank line: nothing is dropped, duplicated or reordered. */
  lemma ChunksRoundTrip(text: string)
    ensures Join(Chunks(text), PARAGRAPH_SEP) == Join(Paragraphs(text), PARAGRAPH_SEP)
  {
    var ps := Paragraphs(text);
    ChunksOfRoundTrip(ps);
    assert ChunkGroups(text) == Pack([], ps) && Chunks(text) == ChunksOf(ps);
  }

  /** Greedy maximality: the first paragraph of each chunk after the first did
      not fit after the paragraphs of the chunk before it. */
  lemma ChunksGreedy(text: string)
    ensures forall i :: 0 <= i < |ChunkGroups(text)| - 1 ==> NoRoomBetween(ChunkGroups(text), i)
  {
    var ps := Paragraphs(text);
    ChunksOfGreedy(ps);
    assert ChunkGroups(text) == Pack([], ps);
  }

  /** The state of the chunking loop before paragraph `i`: the flushed chunks
      followed by the packing of the open buffer and the remaining paragraphs
      are the chunks of all paragraphs. */
  predicate ChunkLoop(ps: seq<string>, i: nat, chunks: seq<string>, buffer: string, cur: seq<string>) {
    && i <= |ps|
    && buffer == Join(cur, PARAGRAPH_SEP)
    && (cur == [] <==> buffer == "")
    && chunks + JoinEach(Pack(cur, ps[i..])) == ChunksOf(ps)
  }

  lemma ChunkLoopStart(ps: seq<string>)
    ensures ChunkLoop(ps, 0, [], "", [])
  {
    assert ps[0..] == ps;
  }

  lemma ChunkLoopOpen(ps: seq<string>, i: nat, chunks: seq<string>)
    requires i < |ps| && ps[i] != []
    requires ChunkLoop(ps, i, chunks, "", [])
    ensures ChunkLoop(ps, i + 1, chunks, ps[i], [ps[i]])
  {
    assert ps[i..][0] == ps[i] && ps[i..][1..] == ps[i + 1..];
  }

  lemma ChunkLoopAppend(ps: seq<string>, i: nat, chunks: seq<string>, buffer: string, cur: seq<string>)
    requires i < |ps| && buffer != ""
    requires ChunkLoop(ps, i, chunks, buffer, cur)
    requires |buffer + PARAGRAPH_SEP + ps[i]| <= MAX_CHARS
    ensures ChunkLoop(ps, i + 1, chunks, buffer + PARAGRAPH_SEP + ps[i], cur + [ps[i]])
  {
    assert ps[i..][0] == ps[i] && ps[i..][1..] == ps[i + 1..];
    JoinAppend(cur, [ps[i]], PARAGRAPH_SEP);
  }

  lemma ChunkLoopFlush(ps: seq<string>, i: nat, chunks: seq<string>, buffer: string, cur: seq<string>)
    requires i < |ps| && buffer != "" && ps[i] != []
    requires ChunkLoop(ps, i, chunks, buffer, cur)
    requires |buffer + PARAGRAPH_SEP + ps[i]| > MAX_CHARS
    ensures ChunkLoop(ps, i + 1, chunks + [buffer], ps[i], [ps[i]])
  {
    assert ps[i..][0] == ps[i] && ps[i..][1..] == ps[i + 1..];
    var rest := Pack([ps[i]], ps[i + 1..]);
    assert Pack(cur, ps[i..]) == [cur] + rest;
    assert JoinEach([cur] + rest) == [buffer] + JoinEach(rest);
  }

  lemma ChunkLoopEnd(ps: seq<string>, chunks: seq<string>, buffer: string, cur: seq<string>)
    requires ChunkLoop(ps, |ps|, chunks, buffer, cur)
    ensures buffer != "" ==> chunks + [buffer] == ChunksOf(ps)
    ensures buffer == "" ==> chunks == ChunksOf(ps)
  {
    assert ps[|ps|..] == [];
  }

  // ---------------------------------------------------------------------------
  // chunkText

  /** Text that normalises and trims to nothing has no paragraph and no chunk. */
  lemma ChunksOfEmptyText(text: string)
    requires Trim(NormalizeNewlines(text)) == ""
    ensures Paragraphs(text) == [] && Chunks(text) == []
  {
    assert SplitBlankLines("") == [""];
    assert Trim("") == "";
    assert TrimmedParagraphs([""]) == [];
    assert Pack([], []) == [];
  }

  /** chunkText: the paragraph loop that fills `buffer` and flushes it into
      `chunks` when the next paragraph does not fit. */
  method ChunkText(text: string) returns (chunks: seq<string>)
    ensures chunks == Chunks(text)
  {
    var normalized := Trim(NormalizeNewlines(text));
    if normalized == "" {
      ChunksOfEmptyText(text);
      return [];
    }
    var paragraphs := TrimmedParagraphs(SplitBlankLines(normalized));
    chunks := [];
    var buffer := "";
    ghost var cur: seq<string> := [];
    ChunkLoopStart(paragraphs);
    for i := 0 to |paragraphs|
      invariant ChunkLoop(paragraphs, i, chunks, buffer, cur)
    {
      var paragraph := paragraphs[i];
      if buffer == "" {
        ChunkLoopOpen(paragraphs, i, chunks);
        buffer := paragraph;
        cur := [paragraph];
      } else if |buffer + PARAGRAPH_SEP + paragraph| <= MAX_CHARS {
        ChunkLoopAppend(paragraphs, i, chunks, buffer, cur);
        buffer := buffer + PARAGRAPH_SEP + paragraph;
        cur := cur + [paragraph];
      } else {
        ChunkLoopFlush(paragraphs, i, chunks, buffer, cur);
        chunks := chunks + [buffer];
        buffer := paragraph;
        cur := [paragraph];
      }
    }
    ChunkLoopEnd(paragraphs, chunks, buffer, cur);
    if buffer != "" {
      chunks := chunks + [buffer];
    }
    assert paragraphs == Paragraphs(text);
  }

  // ---------------------------------------------------------------------------
  // Seed documents

  datatype StageEntry = StageEntry(id: string, labelText: Option<string>, cues: Option<seq<string>>, guidance: Option<string>)
  datatype WarningEntry = WarningEntry(stage: Option<string>, text: string)
  datatype FaqEntry = FaqEntry(q: string, a: string)
  /** The `crop` block of a seed; any field may be missing from the YAML. */
  datatype CropMeta = CropMeta(id: Option<string>, variety: Option<string>, lang: Option<string>,
                               displayName: Option<string>, defaultStage: Option<string>)
  /** A parsed seed document; `defaults` holds the entries of its mapping, in order. */
  datatype SeedDoc = SeedDoc(crop: Option<CropMeta>, overview: Option<string>, stages: Option<seq<StageEntry>>,
                             defaults: Option<seq<(string, Json)>>, warnings: Option<seq<WarningEntry>>,
                             faq: Option<seq<FaqEntry>>)
  /** A chunk before embedding; `stage == None` is a null stage. */
  datatype RawChunk = RawChunk(cropId: string, lang: string, stage: Option<string>, sourcePath: string, text: string)

  /** The chunks of `texts`, all carrying the same tags. */
  function Tag(texts: seq<string>, cropId: string, lang: string, stage: Option<string>, path: string): (r: seq<RawChunk>)
    ensures |r| == |texts|
    ensures forall i :: 0 <= i < |r| ==> r[i] == RawChunk(cropId, lang, stage, path, texts[i])
  {
    seq(|texts|, i requires 0 <= i < |texts| => RawChunk(cropId, lang, stage, path, texts[i]))
  }

  // formatDefaults

  function EntryLine(key: string, entry: Json): string {
    "- " + key + ": " + JsString(entry)
  }

  /** The "- key: value" lines of an object's entries, in order. */
  function EntryLines(fields: seq<(string, Json)>): seq<string> {
    if fields == [] then []
    else
      var n := |fields| - 1;
      EntryLines(fields[..n]) + [EntryLine(fields[n].0, fields[n].1)]
  }

  /** One line per entry, the j-th for the j-th entry. */
  lemma {:induction false} EntryLinesAt(fields: seq<(string, Json)>)
    ensures |EntryLines(fields)| == |fields|
    ensures forall j :: 0 <= j < |fields| ==> EntryLines(fields)[j] == EntryLine(fields[j].0, fields[j].1)
  {
    if fields != [] {
      var n := |fields| - 1;
      EntryLinesAt(fields[..n]);
      forall j | 0 <= j < n ensures EntryLines(fields)[j] == EntryLine(fields[j].0, fields[j].1) {
        assert fields[..n][j] == fields[j];
      }
    }
  }

  lemma EntryLinesStep(fields: seq<(string, Json)>, e: nat)
    requires e < |fields|
    ensures EntryLines(fields[..e + 1]) == EntryLines(fields[..e]) + [EntryLine(fields[e].0, fields[e].1)]
  {
    assert fields[..e + 1][..e] == fields[..e];
  }

  /** The lines of one group: the upper-cased header, one "- key: value" line per
      entry of an object value (any other value is one `String(value)` line),
      then a blank line. */
  function GroupLines(group: string, value: Json): (r: seq<string>)
    ensures |r| >= 2 && r[0] == ToUpper(group) + ":" && r[|r| - 1] == ""
  {
    [ToUpper(group) + ":"] + (if value.JObj? then EntryLines(value.fields) else [JsString(value)]) + [""]
  }

  /** The lines formatDefaults pushes, group after group. */
  function DefaultsLines(defaults: seq<(string, Json)>): seq<string> {
    if defaults == [] then []
    else
      var n := |defaults| - 1;
      DefaultsLines(defaults[..n]) + GroupLines(defaults[n].0, defaults[n].1)
  }

  /** The text formatDefaults returns. */
  function DefaultsText(defaults: seq<(string, Json)>): string {
    Trim(Join(DefaultsLines(defaults), "\n"))
  }

  lemma DefaultsLinesStep(defaults: seq<(string, Json)>, g: nat)
    requires g < |defaults|
    ensures DefaultsLines(defaults[..g + 1]) == DefaultsLines(defaults[..g]) + GroupLines(defaults[g].0, defaults[g].1)
  {
    assert defaults[..g + 1][..g] == defaults[..g];
  }

  /** The first line is the first group's upper-cased header. */
  lemma {:induction false} DefaultsLinesHead(defaults: seq<(string, Json)>)
    requires defaults != []
    ensures DefaultsLines(defaults) != [] && DefaultsLines(defaults)[0] == ToUpper(defaults[0].0) + ":"
  {
    var n := |defaults| - 1;
    if n > 0 {
      DefaultsLinesHead(defaults[..n]);
      assert defaults[..n][0] == defaults[0];
    } else {
      assert DefaultsLines(defaults[..n]) == [];
    }
  }

  lemma {:induction false} JoinKeepsText(parts: seq<string>, sep: string, p: string, j: nat)
    requires p in parts && j < |p| && !IsSpace(p[j])
    ensures !IsBlank(Join(parts, sep))
  {
    if parts[0] == p {
      if |parts| > 1 {
        assert Join(parts, sep)[j] == p[j];
      }
    } else {
      JoinKeepsText(parts[1..], sep, p, j);
      var tail := Join(parts[1..], sep);
      var i :| 0 <= i < |tail| && !IsSpace(tail[i]);
      assert Join(parts, sep)[|parts[0]| + |sep| + i] == tail[i];
    }
  }

  /** Every group contributes a header line ending in ':', so the joined lines of
      a non-empty defaults object are not blank. */
  lemma DefaultsLinesNotBlank(defaults: seq<(string, Json)>)
    requires defaults != []
    ensures !IsBlank(Join(DefaultsLines(defaults), "\n"))
  {
    DefaultsLinesHead(defaults);
    var header := ToUpper(defaults[0].0) + ":";
    assert header[|header| - 1] == ':';
    JoinKeepsText(DefaultsLines(defaults), "\n", header, |header| - 1);
  }

  /** The defaults text is empty exactly when there are no groups. */
  lemma DefaultsTextEmptyIff(defaults: seq<(string, Json)>)
    ensures DefaultsText(defaults) == "" <==> defaults == []
  {
    if defaults != [] {
      DefaultsLinesNotBlank(defaults);
    } else {
      assert DefaultsLines(defaults) == [];
    }
  }

  /** The defaults text is trimmed. */
  lemma DefaultsTextTrimmed(defaults: seq<(string, Json)>)
    ensures Trim(DefaultsText(defaults)) == DefaultsText(defaults)
  {
    TrimIdempotent(Join(DefaultsLines(defaults), "\n"));
  }

  /** formatDefaults: pushes each group's lines, then joins with newlines and
      trims. */
  method FormatDefaults(defaults: seq<(string, Json)>) returns (text: string)
    ensures text == DefaultsText(defaults)
  {
    var lines: seq<string> := [];
    for g := 0 to |defaults|
      invariant lines == DefaultsLines(defaults[..g])
    {
      lines := PushGroup(lines, defaults[g].0, defaults[g].1);
      DefaultsLinesStep(defaults, g);
    }
    assert defaults[..|defaults|] == defaults;
    text := Trim(Join(lines, "\n"));
  }

  /** One turn of formatDefaults' loop: the header, each entry's line of an
      object value or the value's own line, then a blank line. */
  method PushGroup(lines: seq<string>, group: string, value: Json) returns (r: seq<string>)
    ensures r == lines + GroupLines(group, value)
  {
    var header := ToUpper(group) + ":";
    r := lines + [header];
    if value.JObj? {
      var fields := value.fields;
      for e := 0 to |fields|
        invariant r == lines + [header] + EntryLines(fields[..e])
      {
        EntryLinesStep(fields, e);
        r := r + [EntryLine(fields[e].0, fields[e].1)];
      }
      assert fields[..|fields|] == fields;
    } else {
      r := r + [JsString(value)];
    }
    r := r + [""];
  }

  // buildChunksFromSeed

  /** One text of a seed with the stage its chunks are tagged with. */
  datatype Section = Section(stage: Option<string>, text: string)

  /** The chunks of the sections in order, each tagged with its section's stage;
      `chunker` is the text chunker (chunkText). */
  function SectionChunks(ss: seq<Section>, chunker: string -> seq<string>, cropId: string, lang: string, path: string)
    : seq<RawChunk>
  {
    if ss == [] then []
    else
      var n := |ss| - 1;
      SectionChunks(ss[..n], chunker, cropId, lang, path) + Tag(chunker(ss[n].text), cropId, lang, ss[n].stage, path)
  }

  lemma SectionChunksSnoc(ss: seq<Section>, x: Section, chunker: string -> seq<string>, cropId: string, lang: string, path: string)
    ensures SectionChunks(ss + [x], chunker, cropId, lang, path)
         == SectionChunks(ss, chunker, cropId, lang, path) + Tag(chunker(x.text), cropId, lang, x.stage, path)
  {
    assert (ss + [x])[..|ss|] == ss;
  }

  /** Every chunk carries the crop id, language and source path, and comes from
      one section: it has that section's stage and is one of the chunks of that
      section's text. */
  lemma {:induction false} SectionChunkOrigin(ss: seq<Section>, chunker: string -> seq<string>, cropId: string, lang: string,
                                              path: string, i: nat) returns (k: nat)
    requires i < |SectionChunks(ss, chunker, cropId, lang, path)|
    ensures var c := SectionChunks(ss, chunker, cropId, lang, path)[i];
            c.cropId == cropId && c.lang == lang && c.sourcePath == path
    ensures k < |ss|
    ensures SectionChunks(ss, chunker, cropId, lang, path)[i].stage == ss[k].stage
    ensures SectionChunks(ss, chunker, cropId, lang, path)[i].text in chunker(ss[k].text)
  {
    var n := |ss| - 1;
    var prev := SectionChunks(ss[..n], chunker, cropId, lang, path);
    var last := Tag(chunker(ss[n].text), cropId, lang, ss[n].stage, path);
    assert SectionChunks(ss, chunker, cropId, lang, path) == prev + last;
    if i < |prev| {
      k := SectionChunkOrigin(ss[..n], chunker, cropId, lang, path, i);
      assert ss[..n][k] == ss[k];
    } else {
      k := n;
      assert (prev + last)[i] == last[i - |prev|];
    }
  }

  /** Conversely, every chunk of every section is emitted. */
  lemma {:induction false} SectionChunkEmitted(ss: seq<Section>, chunker: string -> seq<string>, cropId: string, lang: string,
                                               path: string, k: nat, t: string)
    requires k < |ss| && t in chunker(ss[k].text)
    ensures RawChunk(cropId, lang, ss[k].stage, path, t) in SectionChunks(ss, chunker, cropId, lang, path)
  {
    var n := |ss| - 1;
    var prev := SectionChunks(ss[..n], chunker, cropId, lang, path);
    var last := Tag(chunker(ss[n].text), cropId, lang, ss[n].stage, path);
    assert SectionChunks(ss, chunker, cropId, lang, path) == prev + last;
    if k < n {
      assert ss[..n][k] == ss[k];
      SectionChunkEmitted(ss[..n], chunker, cropId, lang, path, k, t);
    } else {
      var j :| 0 <= j < |chunker(ss[n].text)| && chunker(ss[n].text)[j] == t;
      assert last[j] == RawChunk(cropId, lang, ss[k].stage, path, t);
    }
  }

  function OverviewText(displayName: string, overview: string): string {
    "Overview for " + displayName + PARAGRAPH_SEP + Trim(overview)
  }

  /** `[header, cues, body].filter(Boolean)`, with a null cues block as "". */
  function NonEmptyParts(parts: seq<string>): (r: seq<string>)
    ensures forall i :: 0 <= i < |r| ==> r[i] != ""
  {
    if parts == [] then []
    else (if parts[0] == "" then [] else [parts[0]]) + NonEmptyParts(parts[1..])
  }

  function StagePayload(stage: StageEntry): string {
    var header := "Stage: " + stage.labelText.GetOr(stage.id);
    var cues := if stage.cues.Some? && |stage.cues.value| > 0
                then "Cues:\n- " + Join(stage.cues.value, "\n- ") else "";
    var body := stage.guidance.GetOr("");
    Join(NonEmptyParts([header, cues, body]), PARAGRAPH_SEP)
  }

  function WarningText(warning: WarningEntry): string {
    "Warning" + (if Truthy(warning.stage) then " (" + warning.stage.value + ")" else "") + ": " + warning.text
  }

  function FaqText(faq: FaqEntry): string {
    "Q: " + faq.q + "\nA: " + faq.a
  }

  /** `displayName ?? variety ?? cropId` */
  function DisplayName(crop: CropMeta, cropId: string): string {
    crop.displayName.GetOr(crop.variety.GetOr(cropId))
  }

  /** The overview section, present when the overview is a non-empty string. */
  function OverviewSections(doc: SeedDoc, crop: CropMeta, cropId: string): (r: seq<Section>)
    ensures |r| <= 1
    ensures |r| == 1 <==> Truthy(doc.overview)
    ensures forall k :: 0 <= k < |r| ==> r[k].stage == crop.defaultStage
  {
    if Truthy(doc.overview) then [Section(crop.defaultStage, OverviewText(DisplayName(crop, cropId), doc.overview.value))]
    else []
  }

  /** One section per stage, tagged with the stage's id. */
  function StageSections(stages: seq<StageEntry>): seq<Section> {
    if stages == [] then []
    else
      var n := |stages| - 1;
      StageSections(stages[..n]) + [Section(Some(stages[n].id), StagePayload(stages[n]))]
  }

  lemma {:induction false} StageSectionsAt(stages: seq<StageEntry>)
    ensures |StageSections(stages)| == |stages|
    ensures forall k :: 0 <= k < |stages| ==> StageSections(stages)[k] == Section(Some(stages[k].id), StagePayload(stages[k]))
  {
    if stages != [] {
      var n := |stages| - 1;
      StageSectionsAt(stages[..n]);
      forall k | 0 <= k < n ensures StageSections(stages)[k] == Section(Some(stages[k].id), StagePayload(stages[k])) {
        assert stages[..n][k] == stages[k];
      }
    }
  }

  /** The defaults section, present when the defaults object formats to a non-empty text. */
  function DefaultsSections(doc: SeedDoc, crop: CropMeta): (r: seq<Section>)
    ensures |r| <= 1
    ensures forall k :: 0 <= k < |r| ==> r[k].stage == crop.defaultStage
  {
    if doc.defaults.Some? && DefaultsText(doc.defaults.value) != "" then
      [Section(crop.defaultStage, "Defaults" + PARAGRAPH_SEP + DefaultsText(doc.defaults.value))]
    else []
  }

  /** One section per warning, tagged with the warning's stage (`?? null`). */
  function WarningSections(warnings: seq<WarningEntry>): seq<Section> {
    if warnings == [] then []
    else
      var n := |warnings| - 1;
      WarningSections(warnings[..n]) + [Section(warnings[n].stage, WarningText(warnings[n]))]
  }

  lemma {:induction false} WarningSectionsAt(warnings: seq<WarningEntry>)
    ensures |WarningSections(warnings)| == |warnings|
    ensures forall k :: 0 <= k < |warnings| ==> WarningSections(warnings)[k] == Section(warnings[k].stage, WarningText(warnings[k]))
  {
    if warnings != [] {
      var n := |warnings| - 1;
      WarningSectionsAt(warnings[..n]);
      forall k | 0 <= k < n ensures WarningSections(warnings)[k] == Section(warnings[k].stage, WarningText(warnings[k])) {
        assert warnings[..n][k] == warnings[k];
      }
    }
  }

  /** One section per FAQ entry, all tagged with `stage` (the crop's default stage). */
  function FaqSections(faq: seq<FaqEntry>, stage: Option<string>): seq<Section> {
    if faq == [] then []
    else
      var n := |faq| - 1;
      FaqSections(faq[..n], stage) + [Section(stage, FaqText(faq[n]))]
  }

  lemma {:induction false} FaqSectionsAt(faq: seq<FaqEntry>, stage: Option<string>)
    ensures |FaqSections(faq, stage)| == |faq|
    ensures forall k :: 0 <= k < |faq| ==> FaqSections(faq, stage)[k] == Section(stage, FaqText(faq[k]))
  {
    if faq != [] {
      var n := |faq| - 1;
      FaqSectionsAt(faq[..n], stage);
      forall k | 0 <= k < n ensures FaqSections(faq, stage)[k] == Section(stage, FaqText(faq[k])) {
        assert faq[..n][k] == faq[k];
      }
    }
  }

  lemma StageChunksStep(done: seq<Section>, stages: seq<StageEntry>, i: nat, chunker: string -> seq<string>,
                        cropId: string, lang: string, path: string)
    requires i < |stages|
    ensures SectionChunks(done + StageSections(stages[..i + 1]), chunker, cropId, lang, path)
         == SectionChunks(done + StageSections(stages[..i]), chunker, cropId, lang, path)
            + Tag(chunker(StagePayload(stages[i])), cropId, lang, Some(stages[i].id), path)
  {
    assert stages[..i + 1][..i] == stages[..i];
    var x := Section(Some(stages[i].id), StagePayload(stages[i]));
    assert done + StageSections(stages[..i + 1]) == (done + StageSections(stages[..i])) + [x];
    SectionChunksSnoc(done + StageSections(stages[..i]), x, chunker, cropId, lang, path);
  }

  lemma WarningChunksStep(done: seq<Section>, warnings: seq<WarningEntry>, i: nat, chunker: string -> seq<string>,
                          cropId: string, lang: string, path: string)
    requires i < |warnings|
    ensures SectionChunks(done + WarningSections(warnings[..i + 1]), chunker, cropId, lang, path)
         == SectionChunks(done + WarningSections(warnings[..i]), chunker, cropId, lang, path)
            + Tag(chunker(WarningText(warnings[i])), cropId, lang, warnings[i].stage, path)
  {
    assert warnings[..i + 1][..i] == warnings[..i];
    var x := Section(warnings[i].stage, WarningText(warnings[i]));
    assert done + WarningSections(warnings[..i + 1]) == (done + WarningSections(warnings[..i])) + [x];
    SectionChunksSnoc(done + WarningSections(warnings[..i]), x, chunker, cropId, lang, path);
  }

  lemma FaqChunksStep(done: seq<Section>, faq: seq<FaqEntry>, stage: Option<string>, i: nat, chunker: string -> seq<string>,
                      cropId: string, lang: string, path: string)
    requires i < |faq|
    ensures SectionChunks(done + FaqSections(faq[..i + 1], stage), chunker, cropId, lang, path)
         == SectionChunks(done + FaqSections(faq[..i], stage), chunker, cropId, lang, path)
            + Tag(chunker(FaqText(faq[i])), cropId, lang, stage, path)
  {
    assert faq[..i + 1][..i] == faq[..i];
    var x := Section(stage, FaqText(faq[i]));
    assert done + FaqSections(faq[..i + 1], stage) == (done + FaqSections(faq[..i], stage)) + [x];
    SectionChunksSnoc(done + FaqSections(faq[..i], stage), x, chunker, cropId, lang, path);
  }

  /** The sections of a seed in emission order: overview, stages, defaults, warnings, FAQ. */
  function SeedSections(doc: SeedDoc, crop: CropMeta, cropId: string): seq<Section> {
    OverviewSections(doc, crop, cropId) + StageSections(doc.stages.GetOr([])) + DefaultsSections(doc, crop)
      + WarningSections(doc.warnings.GetOr([])) + FaqSections(doc.faq.GetOr([]), crop.defaultStage)
  }

  /** buildChunksFromSeed's result. */
  function SeedChunks(doc: SeedDoc, path: string): (r: seq<RawChunk>)
    requires doc.crop.Some? && doc.crop.value.id.Some?
  {
    var crop := doc.crop.value;
    SectionChunks(SeedSections(doc, crop, crop.id.value), Chunks, crop.id.value, crop.lang.GetOr("en"), path)
  }

  /** Every chunk of one seed carries the seed's crop id, its language (default
      "en") and its source path, and the stage of the section it comes from. */
  lemma SeedChunkTags(doc: SeedDoc, path: string, i: nat) returns (k: nat)
    requires doc.crop.Some? && doc.crop.value.id.Some?
    requires i < |SeedChunks(doc, path)|
    ensures var c := SeedChunks(doc, path)[i];
            var ss := SeedSections(doc, doc.crop.value, doc.crop.value.id.value);
            && c.cropId == doc.crop.value.id.value && c.lang == doc.crop.value.lang.GetOr("en") && c.sourcePath == path
            && k < |ss| && c.stage == ss[k].stage && c.text in Chunks(ss[k].text)
  {
    var crop := doc.crop.value;
    k := SectionChunkOrigin(SeedSections(doc, crop, crop.id.value), Chunks, crop.id.value, crop.lang.GetOr("en"), path, i);
  }

  /** The stages block of buildChunksFromSeed: pushes the chunks of each stage's
      payload, tagged with the stage's id, after the `done` sections. */
  method PushStageChunks(results: seq<RawChunk>, ghost done: seq<Section>, stages: seq<StageEntry>,
                         cropId: string, lang: string, path: string) returns (r: seq<RawChunk>)
    requires results == SectionChunks(done, Chunks, cropId, lang, path)
    ensures r == SectionChunks(done + StageSections(stages), Chunks, cropId, lang, path)
  {
    r := results;
    assert done + StageSections(stages[..0]) == done;
    for i := 0 to |stages|
      invariant r == SectionChunks(done + StageSections(stages[..i]), Chunks, cropId, lang, path)
    {
      var stage := stages[i];
      var chunks := ChunkText(StagePayload(stage));
      StageChunksStep(done, stages, i, Chunks, cropId, lang, path);
      r := r + Tag(chunks, cropId, lang, Some(stage.id), path);
    }
    assert stages[..|stages|] == stages;
  }

  /** The warnings block: each warning's chunks carry the warning's stage. */
  method PushWarningChunks(results: seq<RawChunk>, ghost done: seq<Section>, warnings: seq<WarningEntry>,
                           cropId: string, lang: string, path: string) returns (r: seq<RawChunk>)
    requires results == SectionChunks(done, Chunks, cropId, lang, path)
    ensures r == SectionChunks(done + WarningSections(warnings), Chunks, cropId, lang, path)
  {
    r := results;
    assert done + WarningSections(warnings[..0]) == done;
    for i := 0 to |warnings|
      invariant r == SectionChunks(done + WarningSections(warnings[..i]), Chunks, cropId, lang, path)
    {
      var warning := warnings[i];
      var chunks := ChunkText(WarningText(warning));
      WarningChunksStep(done, warnings, i, Chunks, cropId, lang, path);
      r := r + Tag(chunks, cropId, lang, warning.stage, path);
    }
    assert warnings[..|warnings|] == warnings;
  }

  /** The FAQ block: every entry's chunks carry `stage`, the crop's default stage. */
  method PushFaqChunks(results: seq<RawChunk>, ghost done: seq<Section>, faq: seq<FaqEntry>, stage: Option<string>,
                       cropId: string, lang: string, path: string) returns (r: seq<RawChunk>)
    requires results == SectionChunks(done, Chunks, cropId, lang, path)
    ensures r == SectionChunks(done + FaqSections(faq, stage), Chunks, cropId, lang, path)
  {
    r := results;
    assert done + FaqSections(faq[..0], stage) == done;
    for i := 0 to |faq|
      invariant r == SectionChunks(done + FaqSections(faq[..i], stage), Chunks, cropId, lang, path)
    {
      var entry := faq[i];
      var chunks := ChunkText(FaqText(entry));
      FaqChunksStep(done, faq, stage, i, Chunks, cropId, lang, path);
      r := r + Tag(chunks, cropId, lang, stage, path);
    }
    assert faq[..|faq|] == faq;
  }

  /** buildChunksFromSeed: pushes the chunks of the overview, the stages, the
      defaults, the warnings and the FAQ, in that order. */
  method BuildChunksFromSeed(doc: SeedDoc, path: string) returns (results: seq<RawChunk>)
    requires doc.crop.Some? && doc.crop.value.id.Some?
    ensures results == SeedChunks(doc, path)
  {
    var crop := doc.crop.value;
    var cropId := crop.id.value;
    var lang := crop.lang.GetOr("en");
    ghost var o := OverviewSections(doc, crop, cropId);
    results := PushOverviewChunks(doc, crop, cropId, lang, path);
    var stages := doc.stages.GetOr([]);
    results := PushStageChunks(results, o, stages, cropId, lang, path);
    ghost var os := o + StageSections(stages);
    results := PushDefaultsChunks(results, os, doc, crop, cropId, lang, path);
    ghost var osd := os + DefaultsSections(doc, crop);
    results := PushWarningChunks(results, osd, doc.warnings.GetOr([]), cropId, lang, path);
    results := PushFaqChunks(results, osd + WarningSections(doc.warnings.GetOr([])), doc.faq.GetOr([]),
                             crop.defaultStage, cropId, lang, path);
  }

  /** The overview's chunks, when there is an overview. */
  method PushOverviewChunks(doc: SeedDoc, crop: CropMeta, cropId: string, lang: string, path: string)
    returns (r: seq<RawChunk>)
    ensures r == SectionChunks(OverviewSections(doc, crop, cropId), Chunks, cropId, lang, path)
  {
    r := [];
    if Truthy(doc.overview) {
      var overviewText := OverviewText(DisplayName(crop, cropId), doc.overview.value);
      var chunks := ChunkText(overviewText);
      SectionChunksSnoc([], Section(crop.defaultStage, overviewText), Chunks, cropId, lang, path);
      assert [] + [Section(crop.defaultStage, overviewText)] == OverviewSections(doc, crop, cropId);
      r := r + Tag(chunks, cropId, lang, crop.defaultStage, path);
    }
  }

  /** The defaults' chunks, when the defaults format to some text. */
  method PushDefaultsChunks(results: seq<RawChunk>, ghost done: seq<Section>, doc: SeedDoc, crop: CropMeta,
                            cropId: string, lang: string, path: string) returns (r: seq<RawChunk>)
    requires results == SectionChunks(done, Chunks, cropId, lang, path)
    ensures r == SectionChunks(done + DefaultsSections(doc, crop), Chunks, cropId, lang, path)
  {
    r := results;
    if doc.defaults.Some? {
      var defaultsText := FormatDefaults(doc.defaults.value);
      if defaultsText != "" {
        var text := "Defaults" + PARAGRAPH_SEP + defaultsText;
        var chunks := ChunkText(text);
        SectionChunksSnoc(done, Section(crop.defaultStage, text), Chunks, cropId, lang, path);
        r := r + Tag(chunks, cropId, lang, crop.defaultStage, path);
        return;
      }
    }
    assert done + DefaultsSections(doc, crop) == done;
  }

  /** buildMarkdownChunks: the chunks of a companion Markdown file, with a null stage. */
  method BuildMarkdownChunks(content: string, path: string, cropId: string, lang: string) returns (r: seq<RawChunk>)
    ensures r == Tag(Chunks(content), cropId, lang, None, path)
  {
    var chunks := ChunkText(content);
    r := Tag(chunks, cropId, lang, None, path);
  }
}
