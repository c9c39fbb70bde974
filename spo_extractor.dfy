/**
 * The SPO (subject-predicate-object) triple extractor: configuration, word-window
 * chunking, recovery of the LLM's JSON reply, per-chunk validation, aggregation over a
 * whole text, and normalisation with first-wins de-duplication.
 *
 * The completion service is a parameter `reply` from chunk text to `Ok(content)` or
 * `Err(message)` (the prompt is a fixed template around the chunk text, so the chunk text
 * determines the request); `json.loads` is a parameter `parse` returning `None` where
 * Python raises `JSONDecodeError`.
 */
module SpoExtractor {
  import opened Wrappers
  import opened Strs
  import opened Json
  import opened SpoChunks
  import opened SpoReplies
  import opened SpoNormal

  /** The chunks `chunk_text` emits for a text: one per window over its words. */
  function TextChunks(text: string, chunkSize: int, overlap: int): seq<Chunk> {
    ChunksOf(Words(text), Windows(0, 1, |Words(text)|, chunkSize, overlap))
  }

  /** The result dict of `extract_triples_from_text` for the chunks of a text. */
  function Extracted(chunks: seq<Chunk>, reply: string -> Result<string, string>, parse: string -> Option<Json>): Extraction {
    var c := Collect(chunks, reply, parse);
    Extraction(c.triples, c.failed, |chunks|, |chunks| - |c.failed|)
  }

  /**
   * `chunk_text`: splits `text` into words and emits one chunk per window; an overlap that is
   * not smaller than a positive chunk size raises `ValueError`.
   */
  method ChunkText(text: string, chunkSize: int, overlap: int) returns (r: Result<seq<Chunk>, ChunkConfigError>)
    ensures overlap >= chunkSize && chunkSize > 0 ==> r == Err(OverlapNotSmaller(overlap, chunkSize))
    ensures !(overlap >= chunkSize && chunkSize > 0) ==> r == Ok(TextChunks(text, chunkSize, overlap))
  {
    if overlap >= chunkSize && chunkSize > 0 {
      return Err(OverlapNotSmaller(overlap, chunkSize));
    }
    var chunks := ChunkWords(Words(text), chunkSize, overlap);
    return Ok(chunks);
  }

  /** The loop of `chunk_text` over the word list. */
  method ChunkWords(words: seq<string>, chunkSize: int, overlap: int) returns (chunks: seq<Chunk>)
    ensures chunks == ChunksOf(words, Windows(0, 1, |words|, chunkSize, overlap))
  {
    var total := |words|;
    chunks := [];
    var start: nat := 0;
    var number := 1;
    ghost var all := Windows(0, 1, total, chunkSize, overlap);
    ghost var rest := all;
    while start < total
      invariant rest == Windows(start, number, total, chunkSize, overlap)
      invariant ChunksOf(words, all) == chunks + ChunksOf(words, rest)
      decreases total - start
    {
      WindowsUnfold(start, number, total, chunkSize, overlap);
      ghost var prev := start;
      var end := Min(start + chunkSize, total);
      ChunksStep(words, chunks, rest);
      chunks := chunks + [Chunk(Join(Slice(words, start, end), " "), number)];
      rest := rest[1..];
      var next := start + chunkSize - overlap;
      if next <= start {
        if end == total {
          break;
        }
        next := start + 1;
      }
      start := next;
      number := number + 1;
      if number > total {
        break;
      }
      WindowsNext(prev, start, number - 1, total, chunkSize, overlap);
    }
    assert rest == [];
    assert ChunksOf(words, rest) == [];
  }

  /** The validation loop of lines 310-325: keep the well-formed items, stamping each with the chunk number. */
  method ValidateItems(items: seq<Json>, chunkNumber: int) returns (valid: seq<Dict>)
    ensures valid == ValidTriples(items, chunkNumber)
  {
    valid := [];
    var i := 0;
    while i < |items|
      invariant 0 <= i <= |items|
      invariant valid == ValidTriples(items[..i], chunkNumber)
    {
      ValidTriplesSnoc(items, i, chunkNumber);
      if IsValidItem(items[i]) {
        valid := valid + [Put(items[i].members, "chunk", JNum(chunkNumber))];
      }
      i := i + 1;
    }
    assert items[..|items|] == items;
  }

  /**
   * `extract_triples_from_chunk`.  A reply that parses to a list is a success even when no item
   * survives validation.
   */
  method ExtractTriplesFromChunk(reply: Result<string, string>, parse: string -> Option<Json>, chunkNumber: int)
    returns (triples: seq<Dict>, error: Option<ChunkError>)
    ensures (triples, error) == ChunkOutcome(reply, parse, chunkNumber)
  {
    if reply.Err? {
      return [], Some(ApiCallError(reply.error));
    }
    var output := Strip(reply.value);
    var parsed := ParseReply(output, parse);
    if parsed.Err? {
      return [], Some(parsed.error);
    }
    if !parsed.value.JArr? {
      return [], Some(ParsedNotList);
    }
    triples := ValidateItems(parsed.value.items, chunkNumber);
    error := None;
  }

  /**
   * `extract_triples_from_text`: chunk the text, extract from every chunk, and collect.  The
   * chunking `ValueError` propagates.
   */
  method ExtractTriplesFromText(text: string, chunkSize: int, overlap: int,
                                reply: string -> Result<string, string>, parse: string -> Option<Json>)
    returns (r: Result<Extraction, ChunkConfigError>)
    ensures overlap >= chunkSize && chunkSize > 0 ==> r == Err(OverlapNotSmaller(overlap, chunkSize))
    ensures !(overlap >= chunkSize && chunkSize > 0) ==>
      r == Ok(Extracted(TextChunks(text, chunkSize, overlap), reply, parse))
  {
    var chunked := ChunkText(text, chunkSize, overlap);
    if chunked.Err? {
      return Err(chunked.error);
    }
    var chunks := chunked.value;
    var all, failed := ExtractFromChunks(chunks, reply, parse);
    return Ok(Extraction(all, failed, |chunks|, |chunks| - |failed|));
  }

  /** The loop of `extract_triples_from_text` over the chunks. */
  method ExtractFromChunks(chunks: seq<Chunk>, reply: string -> Result<string, string>, parse: string -> Option<Json>)
    returns (all: seq<Dict>, failed: seq<FailedChunk>)
    ensures Collected(all, failed) == Collect(chunks, reply, parse)
  {
    all := [];
    failed := [];
    var i := 0;
    while i < |chunks|
      invariant 0 <= i <= |chunks|
      invariant Collected(all, failed) == CollectWith(chunks[..i], OutcomeOf(reply, parse))
    {
      CollectSnoc(chunks, i, OutcomeOf(reply, parse));
      var triples, error := ExtractTriplesFromChunk(reply(chunks[i].text), parse, chunks[i].number);
      if error.Some? {
        failed := failed + [FailedChunk(chunks[i].number, error.value)];
      } else {
        all := all + triples;
      }
      i := i + 1;
    }
    assert chunks[..|chunks|] == chunks;
  }

  /** One pass of the `normalize_triples` loop: record `i` is kept when its key is present and unseen. */
  method NormalizeOne(ts: seq<Dict>, i: nat, r: seq<NormTriple>, seen: set<Key>) returns (r': seq<NormTriple>, seen': set<Key>)
    requires i < |ts|
    requires r == NormalizedUpTo(ts, RecordKeys(ts), i) && seen == SeenKeys(RecordKeys(ts), i)
    ensures r' == NormalizedUpTo(ts, RecordKeys(ts), i + 1) && seen' == SeenKeys(RecordKeys(ts), i + 1)
  {
    ghost var ks := RecordKeys(ts);
    NormalizeStep(ts, ks, i, seen);
    RecordKeyAt(ts, i);
    var id := KeyAt(ts[i]);
    assert id == ks[i];
    if id.Some? && id.value !in seen {
      r', seen' := r + [MakeTriple(id.value, ts[i])], seen + {id.value};
    } else {
      r', seen' := r, seen;
    }
  }

  /** `normalize_triples`: the seen-set loop computes the reference de-duplication. */
  method NormalizeTriples(ts: seq<Dict>) returns (r: seq<NormTriple>)
    ensures r == Normalized(ts)
  {
    r := [];
    var seen: set<Key> := {};
    var i := 0;
    while i < |ts|
      invariant 0 <= i <= |ts|
      invariant r == NormalizedUpTo(ts, RecordKeys(ts), i)
      invariant seen == SeenKeys(RecordKeys(ts), i)
    {
      r, seen := NormalizeOne(ts, i, r, seen);
      i := i + 1;
    }
    NormalizedUpToAll(ts, RecordKeys(ts), |ts|);
  }
}
