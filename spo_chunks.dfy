/** Word-window chunking of the SPO triple extractor: the window sequence and its coverage lemmas. */
module SpoChunks {
  import opened Strs


  datatype Chunk = Chunk(text: string, number: int)

  /** A chunk's word range `[start, end)` and its 1-based number. */
  datatype Window = Window(start: int, end: int, number: int)

  datatype ChunkConfigError = OverlapNotSmaller(overlap: int, chunkSize: int)

  function Min(a: int, b: int): int { if a <= b then a else b }

  /** The windows the chunking loop visits from word `start`, with chunk number `number`. */
  function Windows(start: nat, number: int, total: nat, size: int, overlap: int): seq<Window>
    decreases total - start
  {
    if start >= total then []
    else
      var end := Min(start + size, total);
      var next := start + size - overlap;
      if next <= start && end == total then [Window(start, end, number)]
      else
        var next' := if next <= start then start + 1 else next;
        if number + 1 > total then [Window(start, end, number)]
        else [Window(start, end, number)] + Windows(next', number + 1, total, size, overlap)
  }

  /** The chunk a window denotes: its words joined by single spaces. */
  function ChunkOf(words: seq<string>, w: Window): Chunk {
    Chunk(Join(Slice(words, w.start, w.end), " "), w.number)
  }

  function ChunksOf(words: seq<string>, ws: seq<Window>): (cs: seq<Chunk>)
    ensures |cs| == |ws|
  {
    if ws == [] then [] else [ChunkOf(words, ws[0])] + ChunksOf(words, ws[1..])
  }

  lemma {:induction false} ChunksOfAt(words: seq<string>, ws: seq<Window>, k: nat)
    requires k < |ws|
    ensures ChunksOf(words, ws)[k] == ChunkOf(words, ws[k])
  {
    if k > 0 { ChunksOfAt(words, ws[1..], k - 1); }
  }


  /** One step of the chunking loop: the chunk of the first remaining window moves to the output. */
  lemma ChunksStep(words: seq<string>, chunks: seq<Chunk>, rest: seq<Window>)
    requires |rest| > 0
    ensures chunks + ChunksOf(words, rest) == (chunks + [ChunkOf(words, rest[0])]) + ChunksOf(words, rest[1..])
  {
    assert ChunksOf(words, rest) == [ChunkOf(words, rest[0])] + ChunksOf(words, rest[1..]);
  }

  /** One step of the loop: the first window, and nothing after it when the loop stops there. */
  lemma WindowsUnfold(start: nat, number: int, total: nat, size: int, overlap: int)
    requires start < total
    ensures |Windows(start, number, total, size, overlap)| >= 1
    ensures Windows(start, number, total, size, overlap)[0] == Window(start, Min(start + size, total), number)
    ensures (start + size - overlap <= start && Min(start + size, total) == total) || number + 1 > total
      ==> |Windows(start, number, total, size, overlap)| == 1
  {
  }

  /** When the loop goes on from `start` to `next`, the remaining windows are those from `next`. */
  lemma WindowsNext(start: nat, next: nat, number: int, total: nat, size: int, overlap: int)
    requires start < total
    requires next == if start + size - overlap <= start then start + 1 else start + size - overlap
    requires !(start + size - overlap <= start && Min(start + size, total) == total) && number + 1 <= total
    ensures Windows(start, number, total, size, overlap)[1..] == Windows(next, number + 1, total, size, overlap)
  {
  }

  /** Whatever the parameters, the loop emits at most one chunk per word. */
  lemma {:induction false} WindowCountBound(start: nat, number: int, total: nat, size: int, overlap: int)
    requires 1 <= number <= total + 1 && (start < total ==> number <= total)
    ensures |Windows(start, number, total, size, overlap)| <= total + 1 - number
    decreases total - start
  {
    if start < total {
      WindowsUnfold(start, number, total, size, overlap);
      var next := start + size - overlap;
      var next' := if next <= start then start + 1 else next;
      if !(next <= start && Min(start + size, total) == total) && number + 1 <= total {
        WindowsNext(start, next', number, total, size, overlap);
        WindowCountBound(next', number + 1, total, size, overlap);
      }
    }
  }

  /** With `0 <= overlap < chunkSize`, window `k` from `start` begins `k * (chunkSize - overlap)` words later, inside the text. */
  lemma {:induction false} WindowAt(start: nat, number: int, total: nat, size: int, overlap: int, k: nat)
    requires 0 <= overlap < size
    requires k < |Windows(start, number, total, size, overlap)|
    ensures Windows(start, number, total, size, overlap)[k]
      == Window(start + k * (size - overlap), Min(start + k * (size - overlap) + size, total), number + k)
    ensures start + k * (size - overlap) < total
    decreases k
  {
    if k > 0 {
      var step := size - overlap;
      var W := Windows(start, number, total, size, overlap);
      var V := Windows(start + step, number + 1, total, size, overlap);
      assert W == [W[0]] + V;
      WindowAt(start + step, number + 1, total, size, overlap, k - 1);
      assert W[k] == V[k - 1];
      assert start + step + (k - 1) * step == start + k * step;
    }
  }

  /** Word `i` lies in one of the windows `ws`. */
  predicate Covered(ws: seq<Window>, i: int) {
    exists k :: 0 <= k < |ws| && ws[k].start <= i < ws[k].end
  }

  /** With `0 <= overlap < chunkSize`, every word from `start` on lies in some window. */
  lemma {:induction false} WindowsCover(start: nat, number: int, total: nat, size: int, overlap: int, i: nat)
    requires 0 <= overlap < size
    requires start <= i < total
    requires 1 <= number <= start + 1
    ensures Covered(Windows(start, number, total, size, overlap), i)
    decreases total - start
  {
    var W := Windows(start, number, total, size, overlap);
    var end := Min(start + size, total);
    if i < end {
      assert W[0] == Window(start, end, number);
    } else {
      assert end == start + size;
      var next := start + size - overlap;
      assert start < next <= i;
      assert number + 1 <= total;
      var V := Windows(next, number + 1, total, size, overlap);
      assert W == [Window(start, end, number)] + V;
      WindowsCover(next, number + 1, total, size, overlap, i);
      var k :| 0 <= k < |V| && V[k].start <= i < V[k].end;
      assert W[k + 1] == V[k];
      assert W[k + 1].start <= i < W[k + 1].end;
    }
  }

  /** With `0 <= overlap < chunkSize` and a word left at `start`, the last window ends at the last word. */
  lemma {:induction false} LastWindowEnds(start: nat, number: int, total: nat, size: int, overlap: int)
    requires 0 <= overlap < size
    requires start < total
    requires 1 <= number <= start + 1
    ensures |Windows(start, number, total, size, overlap)| >= 1
    ensures Windows(start, number, total, size, overlap)[|Windows(start, number, total, size, overlap)| - 1].end == total
    decreases total - start
  {
    var next := start + size - overlap;
    if number + 1 <= total && next < total {
      LastWindowEnds(next, number + 1, total, size, overlap);
      var V := Windows(next, number + 1, total, size, overlap);
      assert Windows(start, number, total, size, overlap) == [Window(start, Min(start + size, total), number)] + V;
    }
  }

  /**
   * Chunking in the regime the source intends (`0 <= overlap < chunkSize`): at most one chunk
   * per word, chunks exactly when the text has words, chunk `k` numbered `k + 1` and starting
   * `k * (chunkSize - overlap)` words in, non-empty; every word is in some chunk; the last
   * chunk ends at the last word.
   */
  lemma ChunkingCoversText(total: nat, size: int, overlap: int)
    requires 0 <= overlap < size
    ensures |Windows(0, 1, total, size, overlap)| <= total
    ensures total > 0 <==> |Windows(0, 1, total, size, overlap)| > 0
    ensures forall k :: 0 <= k < |Windows(0, 1, total, size, overlap)| ==>
      Windows(0, 1, total, size, overlap)[k].number == k + 1
      && Windows(0, 1, total, size, overlap)[k].start == k * (size - overlap)
      && Windows(0, 1, total, size, overlap)[k].start < Windows(0, 1, total, size, overlap)[k].end <= total
    ensures forall i :: 0 <= i < total ==> Covered(Windows(0, 1, total, size, overlap), i)
    ensures total > 0 ==>
      Windows(0, 1, total, size, overlap)[|Windows(0, 1, total, size, overlap)| - 1].end == total
  {
    WindowCountBound(0, 1, total, size, overlap);
    if total > 0 { LastWindowEnds(0, 1, total, size, overlap); }
    forall k | 0 <= k < |Windows(0, 1, total, size, overlap)|
      ensures Windows(0, 1, total, size, overlap)[k].number == k + 1
      && Windows(0, 1, total, size, overlap)[k].start == k * (size - overlap)
      && Windows(0, 1, total, size, overlap)[k].start < Windows(0, 1, total, size, overlap)[k].end <= total
    {
      WindowAt(0, 1, total, size, overlap, k);
    }
    forall i | 0 <= i < total
      ensures Covered(Windows(0, 1, total, size, overlap), i)
    {
      WindowsCover(0, 1, total, size, overlap, i);
    }
  }

}
