/**
 * The document-ingestion service of the backend: `split_text`, which cuts a text
 * into overlapping fixed-size windows, and the pure part of `process_pdf`, which
 * joins the page texts, skips a blank document and pairs every chunk with a
 * metadata record naming its source file.
 */
module Ingestion {
  import Text
  import opened Options

  /** The defaults of `split_text`, which are also the settings of `IngestionService`. */
  const DefaultChunkSize: int := 1000
  const DefaultOverlap: int := 200

  // ---------------------------------------------------------------------------
  // Python slicing

  /**
   * Python's `s[i:j]` for a non-negative start: a negative end counts from the
   * back of the string, and both bounds are clamped into `0..|s|`.
   */
  function PySlice(s: string, i: nat, j: int): (r: string)
    ensures |r| <= |s|
  {
    var n := |s|;
    var hi := if j < 0 then (if j + n < 0 then 0 else j + n) else (if j > n then n else j);
    var lo := if i > n then n else i;
    if lo >= hi then [] else s[lo..hi]
  }

  /** A window that starts inside the string and has a positive length is a plain slice. */
  lemma PySliceInside(s: string, i: nat, j: int)
    requires i < |s| && i < j
    ensures PySlice(s, i, j) == s[i..Min(j, |s|)]
  {
  }

  function Min(a: int, b: int): int
  {
    if a <= b then a else b
  }

  // ---------------------------------------------------------------------------
  // Specification of split_text

  /** The number of windows: `len(text) / step` rounded up. */
  function ChunkCount(n: nat, step: int): nat
    requires step > 0
  {
    (n + step - 1) / step
  }

  /** Window `i` starts `i` steps into the text and is at most `chunkSize` long. */
  function ChunkAt(text: string, chunkSize: int, overlap: int, i: nat): string
    requires overlap < chunkSize
  {
    PySlice(text, i * (chunkSize - overlap), i * (chunkSize - overlap) + chunkSize)
  }

  /** The list `split_text` returns, in closed form. */
  function Chunks(text: string, chunkSize: int, overlap: int): seq<string>
    requires overlap < chunkSize
  {
    seq(ChunkCount(|text|, chunkSize - overlap), i requires 0 <= i => ChunkAt(text, chunkSize, overlap, i))
  }

  /**
   * The loop of `split_text` with its `if start >= len(text): break` taken out:
   * one window per iteration while `start < len(text)`.
   */
  function SplitFrom(text: string, chunkSize: int, overlap: int, start: nat): seq<string>
    requires overlap < chunkSize
    decreases |text| - start
  {
    if start >= |text| then []
    else [PySlice(text, start, start + chunkSize)] + SplitFrom(text, chunkSize, overlap, start + chunkSize - overlap)
  }

  /** Python's `text[0:chunk_size] + text[i*step+overlap:...]`: the windows glued back, overlaps dropped. */
  function Glue(chunks: seq<string>, overlap: nat): string
  {
    if |chunks| == 0 then []
    else if |chunks| == 1 then chunks[0]
    else Glue(chunks[..|chunks| - 1], overlap) + PySlice(chunks[|chunks| - 1], overlap, |chunks[|chunks| - 1]|)
  }

  // ---------------------------------------------------------------------------
  // The count is the ceiling of len(text) / step

  lemma MulMono(a: int, b: int, step: int)
    requires a <= b && step > 0
    ensures a * step <= b * step
  {
    assert b * step - a * step == (b - a) * step;
  }

  lemma MulSucc(k: int, step: int)
    ensures k * step + step == (k + 1) * step
  {
  }

  /** `ChunkCount(n, step)` windows reach the end of the text, and one fewer do not. */
  lemma ChunkCountCovers(n: nat, step: int)
    requires step > 0
    ensures ChunkCount(n, step) * step >= n
    ensures ChunkCount(n, step) > 0 ==> (ChunkCount(n, step) - 1) * step < n
    ensures n == 0 <==> ChunkCount(n, step) == 0
  {
    var q, r := (n + step - 1) / step, (n + step - 1) % step;
    assert n + step - 1 == q * step + r;
    assert (q - 1) * step == q * step - step;
    if n > 0 {
      assert q * step > 0;
      if q <= 0 { MulMono(q, 0, step); }
    }
  }

  /** ... and it is the only count with that property. */
  lemma ChunkCountUnique(n: nat, step: int, k: nat)
    requires step > 0
    requires k * step >= n && (k > 0 ==> (k - 1) * step < n)
    ensures k == ChunkCount(n, step)
  {
    var q := ChunkCount(n, step);
    ChunkCountCovers(n, step);
    if k > q {
      MulMono(q, k - 1, step);
    } else if k < q {
      MulMono(k, q - 1, step);
    }
  }

  /** With a positive step, `split_text` returns the empty list exactly for the empty text. */
  lemma EmptyText(text: string, chunkSize: int, overlap: int)
    requires overlap < chunkSize
    ensures Chunks(text, chunkSize, overlap) == [] <==> text == []
  {
    ChunkCountCovers(|text|, chunkSize - overlap);
  }

  /** The number of chunks is the least `k` with `k * (chunkSize - overlap) >= len(text)`. */
  lemma ChunkCountIsCeiling(text: string, chunkSize: int, overlap: int)
    requires overlap < chunkSize
    ensures var k, step := |Chunks(text, chunkSize, overlap)|, chunkSize - overlap;
      k * step >= |text| && (k > 0 ==> (k - 1) * step < |text|)
  {
    ChunkCountCovers(|text|, chunkSize - overlap);
  }

  /** A start inside the text is the start of a window. */
  lemma InsideIsChunk(n: nat, step: int, k: nat)
    requires step > 0 && k * step < n
    ensures k < ChunkCount(n, step)
  {
    ChunkCountCovers(n, step);
    if k >= ChunkCount(n, step) { MulMono(ChunkCount(n, step), k, step); }
  }

  /** Every window starts inside the text. */
  lemma StartInside(text: string, chunkSize: int, overlap: int, i: nat)
    requires overlap < chunkSize && i < |Chunks(text, chunkSize, overlap)|
    ensures i * (chunkSize - overlap) < |text|
  {
    var step := chunkSize - overlap;
    ChunkCountCovers(|text|, step);
    MulMono(i, ChunkCount(|text|, step) - 1, step);
  }

  /**
   * Window `i` is the slice of `text` that starts at `i * (chunkSize - overlap)` and
   * is `min(chunkSize, remaining)` long; so no window is longer than `chunkSize`.
   */
  lemma ChunkShape(text: string, chunkSize: int, overlap: int, i: nat)
    requires 0 < chunkSize && overlap < chunkSize && i < |Chunks(text, chunkSize, overlap)|
    ensures var start := i * (chunkSize - overlap);
      0 <= start < |text| &&
      Chunks(text, chunkSize, overlap)[i] == text[start..Min(start + chunkSize, |text|)] &&
      |Chunks(text, chunkSize, overlap)[i]| == Min(chunkSize, |text| - start) <= chunkSize
  {
    var start := i * (chunkSize - overlap);
    StartInside(text, chunkSize, overlap, i);
    MulMono(0, i, chunkSize - overlap);
    assert Chunks(text, chunkSize, overlap)[i] == PySlice(text, start, start + chunkSize);
    PySliceInside(text, start, start + chunkSize);
  }

  /** The loop without its break produces the same list: the break is redundant. */
  lemma {:induction false} SplitFromClosedForm(text: string, chunkSize: int, overlap: int, k: nat)
    requires overlap < chunkSize && k <= |Chunks(text, chunkSize, overlap)|
    ensures SplitFrom(text, chunkSize, overlap, k * (chunkSize - overlap)) == Chunks(text, chunkSize, overlap)[k..]
    decreases |Chunks(text, chunkSize, overlap)| - k
  {
    var step, all := chunkSize - overlap, Chunks(text, chunkSize, overlap);
    ChunkCountCovers(|text|, step);
    if k == |all| {
      assert k * step >= |text|;
    } else {
      StartInside(text, chunkSize, overlap, k);
      assert k * step + chunkSize - overlap == (k + 1) * step;
      SplitFromClosedForm(text, chunkSize, overlap, k + 1);
      assert all[k..] == [all[k]] + all[k + 1..];
    }
  }

  lemma BreakIsRedundant(text: string, chunkSize: int, overlap: int)
    requires overlap < chunkSize
    ensures SplitFrom(text, chunkSize, overlap, 0) == Chunks(text, chunkSize, overlap)
  {
    SplitFromClosedForm(text, chunkSize, overlap, 0);
  }

  /** Gluing the first `k` windows, overlaps dropped, gives the text up to the end of window `k - 1`. */
  lemma {:induction false} GluePrefix(text: string, chunkSize: int, overlap: int, k: nat)
    requires 0 <= overlap < chunkSize && 1 <= k <= |Chunks(text, chunkSize, overlap)|
    ensures Glue(Chunks(text, chunkSize, overlap)[..k], overlap) ==
      text[..Min((k - 1) * (chunkSize - overlap) + chunkSize, |text|)]
  {
    var step, all := chunkSize - overlap, Chunks(text, chunkSize, overlap);
    var s := (k - 1) * step;
    var e := Min(s + chunkSize, |text|);
    ChunkShape(text, chunkSize, overlap, k - 1);
    assert all[k - 1] == text[s..e];
    if k > 1 {
      GluePrefix(text, chunkSize, overlap, k - 1);
      assert all[..k][..k - 1] == all[..k - 1];
      MulSucc(k - 2, step);
      GlueStep(text, s, overlap, e, Glue(all[..k - 1], overlap));
    }
  }

  /** Appending the window `text[s..e]` minus its first `overlap` characters to `text[..s + overlap]`. */
  lemma GlueStep(text: string, s: nat, overlap: nat, e: nat, glued: string)
    requires s < e <= |text| && glued == text[..Min(s + overlap, |text|)]
    requires e == |text| || overlap <= e - s
    ensures glued + PySlice(text[s..e], overlap, e - s) == text[..e]
  {
    if overlap <= e - s {
      assert text[..s + overlap] + text[s + overlap..e] == text[..e];
    }
  }

  /**
   * No character is lost: the last window ends at or after the end of the text, and
   * the first window followed by every later one minus its first `overlap`
   * characters is the text again.
   */
  lemma Coverage(text: string, chunkSize: int, overlap: int)
    requires 0 <= overlap < chunkSize
    ensures var k := |Chunks(text, chunkSize, overlap)|;
      k > 0 ==> (k - 1) * (chunkSize - overlap) + chunkSize >= |text|
    ensures Glue(Chunks(text, chunkSize, overlap), overlap) == text
  {
    var step, all := chunkSize - overlap, Chunks(text, chunkSize, overlap);
    ChunkCountCovers(|text|, step);
    if |all| > 0 {
      var k := |all|;
      assert (k - 1) * step + chunkSize >= k * step;
      GluePrefix(text, chunkSize, overlap, k);
      assert all[..k] == all;
    }
  }

  /**
   * A text longer than one step but no longer than one window is returned whole
   * as the first chunk, and every later chunk is a suffix of it; there are exactly
   * two chunks when, and only when, it is also at most two steps long.
   */
  lemma ShortTextChunks(text: string, chunkSize: int, overlap: int)
    requires overlap < chunkSize && chunkSize - overlap < |text| <= chunkSize
    ensures var all := Chunks(text, chunkSize, overlap);
      |all| >= 2 && all[0] == text &&
      forall i :: 0 <= i < |all| ==> i * (chunkSize - overlap) <= |text| && all[i] == text[i * (chunkSize - overlap)..]
    ensures |Chunks(text, chunkSize, overlap)| == 2 <==> |text| <= 2 * (chunkSize - overlap)
  {
    var step, all := chunkSize - overlap, Chunks(text, chunkSize, overlap);
    ChunkCountIsCeiling(text, chunkSize, overlap);
    AtLeastTwoChunks(|text|, step);
    forall i | 0 <= i < |all| ensures i * step <= |text| && all[i] == text[i * step..] {
      ChunkIsSuffix(text, chunkSize, overlap, i);
    }
    if |text| <= 2 * step {
      ChunkCountUnique(|text|, step, 2);
    }
  }

  lemma AtLeastTwoChunks(n: nat, step: int)
    requires 0 < step < n
    ensures ChunkCount(n, step) >= 2
  {
    ChunkCountCovers(n, step);
    if ChunkCount(n, step) < 2 { MulMono(ChunkCount(n, step), 1, step); }
  }

  lemma ChunkIsSuffix(text: string, chunkSize: int, overlap: int, i: nat)
    requires overlap < chunkSize && |text| <= chunkSize && i < |Chunks(text, chunkSize, overlap)|
    ensures i * (chunkSize - overlap) <= |text| && Chunks(text, chunkSize, overlap)[i] == text[i * (chunkSize - overlap)..]
  {
    var start := i * (chunkSize - overlap);
    ChunkShape(text, chunkSize, overlap, i);
    assert start >= 0;
    assert Min(start + chunkSize, |text|) == |text|;
  }

  /** With the defaults, a 1000-character text gives the whole text and its last 200 characters. */
  lemma DefaultThousandChars(text: string)
    requires |text| == 1000
    ensures Chunks(text, DefaultChunkSize, DefaultOverlap) == [text, text[800..]]
  {
    ShortTextChunks(text, DefaultChunkSize, DefaultOverlap);
  }

  // ---------------------------------------------------------------------------
  // split_text

  /** One more iteration of the loop: the next window extends the prefix built so far. */
  lemma NextChunk(text: string, chunkSize: int, overlap: int, k: nat)
    requires overlap < chunkSize && k * (chunkSize - overlap) < |text|
    ensures k < |Chunks(text, chunkSize, overlap)|
    ensures Chunks(text, chunkSize, overlap)[..k + 1] ==
      Chunks(text, chunkSize, overlap)[..k] + [PySlice(text, k * (chunkSize - overlap), k * (chunkSize - overlap) + chunkSize)]
  {
    InsideIsChunk(|text|, chunkSize - overlap, k);
    var all := Chunks(text, chunkSize, overlap);
    assert all[k] == ChunkAt(text, chunkSize, overlap, k);
    assert all[..k + 1] == all[..k] + [all[k]];
  }

  /** The loop stops exactly after the last window. */
  lemma LastChunk(text: string, chunkSize: int, overlap: int, k: nat)
    requires overlap < chunkSize && k <= |Chunks(text, chunkSize, overlap)|
    requires k * (chunkSize - overlap) >= |text|
    ensures Chunks(text, chunkSize, overlap)[..k] == Chunks(text, chunkSize, overlap)
  {
    if k < |Chunks(text, chunkSize, overlap)| {
      StartInside(text, chunkSize, overlap, k);
    }
  }

  /** `split_text`, break included; the loop terminates because `overlap < chunkSize`. */
  method SplitText(text: string, chunkSize: int, overlap: int) returns (chunks: seq<string>)
    requires overlap < chunkSize
    ensures chunks == Chunks(text, chunkSize, overlap)
  {
    chunks := [];
    var start: int := 0;
    while start < |text|
      invariant start == |chunks| * (chunkSize - overlap)
      invariant |chunks| <= |Chunks(text, chunkSize, overlap)|
      invariant chunks == Chunks(text, chunkSize, overlap)[..|chunks|]
      decreases |text| - start
    {
      NextChunk(text, chunkSize, overlap, |chunks|);
      var end := start + chunkSize;
      var chunk := PySlice(text, start, end);
      chunks := chunks + [chunk];
      start := end - overlap;
      MulSucc(|chunks| - 1, chunkSize - overlap);
      if start >= |text| {
        break;
      }
    }
    LastChunk(text, chunkSize, overlap, |chunks|);
  }

  // ---------------------------------------------------------------------------
  // process_pdf

  /** The source file named on every chunk stored in the vector store. */
  datatype Metadata = Metadata(source: string)

  /** What `process_pdf` hands to the vector store: nothing, or the chunks with their metadata. */
  datatype Indexing = NothingIndexed | Indexed(texts: seq<string>, metadatas: seq<Metadata>)

  /** `page.extract_text() or ""`: a page that yields no text contributes the empty string. */
  function PageText(page: Option<string>): string
  {
    match page
    case None => []
    case Some(t) => t
  }

  /** The concatenation of the page texts, in page order. */
  function DocumentText(pages: seq<Option<string>>): string
  {
    if pages == [] then [] else DocumentText(pages[..|pages| - 1]) + PageText(pages[|pages| - 1])
  }

  /** `[{"source": filename} for _ in chunks]`. */
  function Metadatas(chunks: seq<string>, filename: string): (r: seq<Metadata>)
    ensures |r| == |chunks| && forall i :: 0 <= i < |r| ==> r[i].source == filename
  {
    seq(|chunks|, _ => Metadata(filename))
  }

  /**
   * `IngestionService.process_pdf` once the PDF reader has produced the text of each
   * page: a document whose text is whitespace only indexes nothing; any other is cut
   * with the service's settings (1000 / 200) and stored with one metadata record per chunk.
   */
  method ProcessPdf(pages: seq<Option<string>>, filename: string) returns (r: Indexing)
    ensures r.NothingIndexed? <==> Text.AllSpace(DocumentText(pages), Text.Python)
    ensures r.Indexed? ==>
      && r.texts == Chunks(DocumentText(pages), DefaultChunkSize, DefaultOverlap)
      && |r.texts| > 0
      && |r.metadatas| == |r.texts|
      && forall i :: 0 <= i < |r.metadatas| ==> r.metadatas[i].source == filename
  {
    var text := "";
    for i := 0 to |pages|
      invariant text == DocumentText(pages[..i])
    {
      assert pages[..i + 1][..i] == pages[..i];
      text := text + PageText(pages[i]);
    }
    assert pages[..|pages|] == pages;
    Text.TrimEmptyIff(text, Text.Python);
    if Text.Trim(text, Text.Python) == [] {
      return NothingIndexed;
    }
    var chunks := SplitText(text, DefaultChunkSize, DefaultOverlap);
    EmptyText(text, DefaultChunkSize, DefaultOverlap);
    r := Indexed(chunks, Metadatas(chunks, filename));
  }
}
