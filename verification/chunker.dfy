/** The fixed-window word chunkers of `summarize_email` and
    `analyze_sentiment`. Both walk the word list in steps of 500 words; the
    summary chunker additionally cuts every chunk but the last after its
    final '.'. */
module Chunker {
  import opened Text

  /** Words per chunk in both pipelines. */
  const ChunkWords := 500

  /** `min(i + 500, n)`: the end of the window that starts at word `i`. */
  function WindowEnd(n: nat, i: nat): nat {
    if i + ChunkWords <= n then i + ChunkWords else n
  }

  /** `ceil(n / 500)`: the number of windows over `n` words. */
  function ChunkCount(n: nat): nat {
    (n + ChunkWords - 1) / ChunkWords
  }

  /** The `k`-th window, `words[500k : 500k + 500]`. */
  function Window(words: seq<string>, k: nat): seq<string>
    requires k < ChunkCount(|words|)
  {
    words[k * ChunkWords .. WindowEnd(|words|, k * ChunkWords)]
  }

  /** `chunk[:chunk.rfind('.') + 1]` when the chunk has a '.', else the chunk. */
  function TrimAtLastPeriod(chunk: string): string {
    var last := LastIndexOf(chunk, '.');
    if last != -1 then chunk[..last + 1] else chunk
  }

  /** The cut keeps a prefix of the chunk; with a '.' in the chunk that prefix
      ends at its last '.', and without one it is the whole chunk. */
  lemma TrimAtLastPeriodSpec(chunk: string)
    ensures var r := TrimAtLastPeriod(chunk);
            && |r| <= |chunk| && r == chunk[..|r|]
            && ('.' in chunk ==> |r| > 0 && r[|r| - 1] == '.' && '.' !in chunk[|r|..])
            && ('.' !in chunk ==> r == chunk)
  {
    var r := TrimAtLastPeriod(chunk);
    if '.' in chunk {
      var last := LastIndexOf(chunk, '.');
      assert forall k :: 0 <= k < |chunk| - |r| ==> chunk[|r|..][k] == chunk[last + 1 + k];
    }
  }

  /** The chunk loop of `summarize_email` from word offset `i`. The source
      also assigns `i = i + len(chunk.split())` after a cut, but the next
      iteration of `range` ignores it, so the next window always starts 500
      words further on. */
  function SummaryChunksFrom(words: seq<string>, i: nat): seq<string>
    decreases |words| - i
  {
    if i >= |words| then []
    else [SummaryChunkAt(words, i)] + SummaryChunksFrom(words, i + ChunkWords)
  }

  /** One iteration of the summary chunk loop: join the window at `i` and,
      when more words follow it, cut after its last '.'. */
  function SummaryChunkAt(words: seq<string>, i: nat): (r: string)
    requires i < |words|
    ensures var joined := Join(words[i..WindowEnd(|words|, i)]);
            && |r| <= |joined| && r == joined[..|r|]
            && (i + ChunkWords >= |words| || '.' !in joined ==> r == joined)
            && (i + ChunkWords < |words| && '.' in joined ==>
                  |r| > 0 && r[|r| - 1] == '.' && '.' !in joined[|r|..])
  {
    var chunk := Join(words[i..WindowEnd(|words|, i)]);
    TrimAtLastPeriodSpec(chunk);
    if i + ChunkWords < |words| then TrimAtLastPeriod(chunk) else chunk
  }

  /** The chunk list of `summarize_email`: one chunk per 500-word window,
      built as `ChunkOfWindow` describes. */
  function SummaryChunks(words: seq<string>): (chunks: seq<string>)
    ensures |chunks| == ChunkCount(|words|)
    ensures forall k :: 0 <= k < |chunks| ==> chunks[k] == ChunkOfWindow(words, k)
  {
    SummaryChunksFromWindows(words);
    SummaryChunksFrom(words, 0)
  }

  /** The chunk loop of `analyze_sentiment` from word offset `i`: plain
      500-word windows, never cut. */
  function SentimentChunksFrom(words: seq<string>, i: nat): seq<string>
    decreases |words| - i
  {
    if i >= |words| then []
    else [Join(words[i..WindowEnd(|words|, i)])] + SentimentChunksFrom(words, i + ChunkWords)
  }

  /** The chunk list of `analyze_sentiment`: window `k`, joined, for every
      window. */
  function SentimentChunks(words: seq<string>): (chunks: seq<string>)
    ensures |chunks| == ChunkCount(|words|)
    ensures forall k :: 0 <= k < |chunks| ==> chunks[k] == Join(Window(words, k))
  {
    SentimentChunksFromWindows(words);
    SentimentChunksFrom(words, 0)
  }

  /** What the summary chunker makes of window `k`: cut after the last '.'
      unless it is the final window. */
  function ChunkOfWindow(words: seq<string>, k: nat): string
    requires k < ChunkCount(|words|)
  {
    if k + 1 < ChunkCount(|words|)
    then TrimAtLastPeriod(Join(Window(words, k)))
    else Join(Window(words, k))
  }

  /** Concatenation of a sequence of sequences. */
  function Concat<T>(parts: seq<seq<T>>): seq<T> {
    if |parts| == 0 then [] else parts[0] + Concat(parts[1..])
  }

  // ---------------------------------------------------------------------
  // Layout lemmas
  // ---------------------------------------------------------------------

  /** The `k`-th chunk from offset `i` is the loop body at `i + 500k`. */
  lemma {:induction false} SummaryChunksFromAt(words: seq<string>, i: nat, k: nat, p: nat)
    requires p == i + k * ChunkWords && p < |words|
    ensures k < |SummaryChunksFrom(words, i)|
    ensures SummaryChunksFrom(words, i)[k] == SummaryChunkAt(words, p)
    decreases k
  {
    SummaryChunksFromStep(words, i);
    if k > 0 {
      SummaryChunksFromAt(words, i + ChunkWords, k - 1, p);
      IndexOfTail(SummaryChunksFrom(words, i), k);
    }
  }

  /** One unfolding of the summary chunk loop. */
  lemma SummaryChunksFromStep(words: seq<string>, i: nat)
    requires i < |words|
    ensures |SummaryChunksFrom(words, i)| > 0
    ensures SummaryChunksFrom(words, i)[0] == SummaryChunkAt(words, i)
    ensures SummaryChunksFrom(words, i)[1..] == SummaryChunksFrom(words, i + ChunkWords)
  {
  }

  lemma IndexOfTail<T>(xs: seq<T>, k: nat)
    requires 0 < k < |xs|
    ensures xs[k] == xs[1..][k - 1]
  {
  }

  lemma {:induction false} SummaryChunksFromCount(words: seq<string>, i: nat)
    requires i <= |words|
    ensures |SummaryChunksFrom(words, i)| == (|words| - i + ChunkWords - 1) / ChunkWords
    decreases |words| - i
  {
    if i < |words| && i + ChunkWords <= |words| {
      SummaryChunksFromCount(words, i + ChunkWords);
    }
  }

  /** The `k`-th sentiment chunk from offset `i` is the window at `i + 500k`, joined. */
  lemma {:induction false} SentimentChunksFromAt(words: seq<string>, i: nat, k: nat, p: nat)
    requires p == i + k * ChunkWords && p < |words|
    ensures k < |SentimentChunksFrom(words, i)|
    ensures SentimentChunksFrom(words, i)[k] == Join(words[p..WindowEnd(|words|, p)])
    decreases k
  {
    SentimentChunksFromStep(words, i);
    if k > 0 {
      SentimentChunksFromAt(words, i + ChunkWords, k - 1, p);
      IndexOfTail(SentimentChunksFrom(words, i), k);
    }
  }

  /** One unfolding of the sentiment chunk loop. */
  lemma SentimentChunksFromStep(words: seq<string>, i: nat)
    requires i < |words|
    ensures |SentimentChunksFrom(words, i)| > 0
    ensures SentimentChunksFrom(words, i)[0] == Join(words[i..WindowEnd(|words|, i)])
    ensures SentimentChunksFrom(words, i)[1..] == SentimentChunksFrom(words, i + ChunkWords)
  {
  }

  lemma {:induction false} SentimentChunksFromCount(words: seq<string>, i: nat)
    requires i <= |words|
    ensures |SentimentChunksFrom(words, i)| == (|words| - i + ChunkWords - 1) / ChunkWords
    decreases |words| - i
  {
    if i < |words| && i + ChunkWords <= |words| {
      SentimentChunksFromCount(words, i + ChunkWords);
    }
  }

  /** Window `k` starts before the end of the words, and more words follow
      it exactly when it is not the last window. */
  lemma WindowBounds(n: nat, k: nat)
    requires k < ChunkCount(n)
    ensures k * ChunkWords < n
    ensures k * ChunkWords + ChunkWords < n <==> k + 1 < ChunkCount(n)
  {
  }

  /** The summary loop from offset 0 produces window `k`'s chunk at
      position `k`, for every window. */
  lemma SummaryChunksFromWindows(words: seq<string>)
    ensures |SummaryChunksFrom(words, 0)| == ChunkCount(|words|)
    ensures forall k :: 0 <= k < ChunkCount(|words|) ==> SummaryChunksFrom(words, 0)[k] == ChunkOfWindow(words, k)
  {
    SummaryChunksFromCount(words, 0);
    forall k | 0 <= k < ChunkCount(|words|)
      ensures SummaryChunksFrom(words, 0)[k] == ChunkOfWindow(words, k)
    {
      WindowBounds(|words|, k);
      SummaryChunksFromAt(words, 0, k, k * ChunkWords);
    }
  }

  /** The sentiment loop from offset 0 produces window `k`, joined, at
      position `k`, for every window. */
  lemma SentimentChunksFromWindows(words: seq<string>)
    ensures |SentimentChunksFrom(words, 0)| == ChunkCount(|words|)
    ensures forall k :: 0 <= k < ChunkCount(|words|) ==> SentimentChunksFrom(words, 0)[k] == Join(Window(words, k))
  {
    SentimentChunksFromCount(words, 0);
    forall k | 0 <= k < ChunkCount(|words|)
      ensures SentimentChunksFrom(words, 0)[k] == Join(Window(words, k))
    {
      WindowBounds(|words|, k);
      SentimentChunksFromAt(words, 0, k, k * ChunkWords);
    }
  }

  /** Chunk layout of `summarize_email`: one chunk per 500-word window
      (`ceil(n/500)` of them), the `k`-th built from words `500k ..`;
      non-final chunks are cut after their last '.', the final one is not. */
  lemma SummaryChunksLayout(words: seq<string>)
    ensures |SummaryChunks(words)| == ChunkCount(|words|)
    ensures forall k :: 0 <= k < ChunkCount(|words|) - 1 ==>
              SummaryChunks(words)[k] == TrimAtLastPeriod(Join(Window(words, k)))
    ensures 0 < |words| ==>
              SummaryChunks(words)[ChunkCount(|words|) - 1] ==
                Join(Window(words, ChunkCount(|words|) - 1))
  {
  }

  /** Chunk layout of `analyze_sentiment`: one chunk per 500-word window. */
  lemma SentimentChunksLayout(words: seq<string>)
    ensures |SentimentChunks(words)| == ChunkCount(|words|)
    ensures forall k :: 0 <= k < ChunkCount(|words|) ==>
              SentimentChunks(words)[k] == Join(Window(words, k))
  {
  }

  /** Every window has between 1 and 500 words, and all but the last exactly 500. */
  lemma WindowSizes(words: seq<string>, k: nat)
    requires k < ChunkCount(|words|)
    ensures 1 <= |Window(words, k)| <= ChunkWords
    ensures k + 1 < ChunkCount(|words|) ==> |Window(words, k)| == ChunkWords
  {
  }

  /** The words of each chunk, chunk by chunk. */
  function WordsOfEach(chunks: seq<string>): (r: seq<seq<string>>)
    ensures |r| == |chunks|
    ensures forall k :: 0 <= k < |chunks| ==> r[k] == Words(chunks[k])
  {
    if |chunks| == 0 then [] else [Words(chunks[0])] + WordsOfEach(chunks[1..])
  }

  /** The sentiment chunks tile the word list: their words, concatenated in
      chunk order, are every word exactly once. */
  lemma {:induction false} SentimentChunksCoverFrom(words: seq<string>, i: nat)
    requires AllWords(words)
    requires i <= |words|
    ensures Concat(WordsOfEach(SentimentChunksFrom(words, i))) == words[i..]
    decreases |words| - i
  {
    if i < |words| {
      var e := WindowEnd(|words|, i);
      var chunks := SentimentChunksFrom(words, i);
      assert chunks[1..] == SentimentChunksFrom(words, i + ChunkWords);
      assert AllWords(words[i..e]);
      WordsOfJoin(words[i..e]);
      if e < |words| {
        SentimentChunksCoverFrom(words, e);
        SuffixSplit(words, i, e);
      } else {
        assert chunks[1..] == [];
      }
    }
  }

  lemma SentimentChunksCover(words: seq<string>)
    requires AllWords(words)
    ensures Concat(WordsOfEach(SentimentChunks(words))) == words
  {
    SentimentChunksCoverFrom(words, 0);
  }

  /** No summary chunk has more than 500 words, so the 1000-word cap of
      `summarize_email` never applies to one. */
  lemma SummaryChunkWordBound(words: seq<string>)
    requires AllWords(words)
    ensures forall c :: c in SummaryChunks(words) ==> |Words(c)| <= ChunkWords
  {
    SummaryChunksFromCount(words, 0);
    var chunks := SummaryChunks(words);
    forall c | c in chunks
      ensures |Words(c)| <= ChunkWords
    {
      var k :| 0 <= k < |chunks| && chunks[k] == c;
      SummaryChunkIsChunkOfWindow(words, k);
      ChunkOfWindowWordBound(words, k);
    }
  }

  /** Summary chunk `k` is what the chunker makes of window `k`. */
  lemma SummaryChunkIsChunkOfWindow(words: seq<string>, k: nat)
    requires k < ChunkCount(|words|)
    ensures k < |SummaryChunks(words)|
    ensures SummaryChunks(words)[k] == ChunkOfWindow(words, k)
  {
  }

  lemma ChunkOfWindowWordBound(words: seq<string>, k: nat)
    requires AllWords(words)
    requires k < ChunkCount(|words|)
    ensures |Words(ChunkOfWindow(words, k))| <= ChunkWords
  {
    var w := Window(words, k);
    WindowSizes(words, k);
    assert AllWords(w);
    var joined := Join(w);
    if k + 1 < ChunkCount(|words|) {
      TrimAtLastPeriodSpec(joined);
      WordsOfJoinPrefix(w, |TrimAtLastPeriod(joined)|);
    } else {
      WordsOfJoin(w);
    }
  }

  /** The words of each sentiment chunk are exactly its window. */
  lemma SentimentChunkWords(words: seq<string>, k: nat)
    requires AllWords(words)
    requires k < ChunkCount(|words|)
    ensures k < |SentimentChunks(words)|
    ensures Words(SentimentChunks(words)[k]) == Window(words, k)
  {
    SentimentChunksLayout(words);
    WordsOfJoin(Window(words, k));
  }

  /** A non-final summary chunk whose window does not end in '.' loses the
      text after its last '.': that text is in no chunk, since the next chunk
      starts at the next window regardless. */
  lemma CutChunkLosesTail(words: seq<string>, k: nat)
    requires k + 1 < ChunkCount(|words|)
    requires '.' in Join(Window(words, k))
    requires Join(Window(words, k))[|Join(Window(words, k))| - 1] != '.'
    ensures k + 1 < |SummaryChunks(words)|
    ensures var c := SummaryChunks(words)[k];
            |c| < |Join(Window(words, k))| && c == Join(Window(words, k))[..|c|]
    ensures SummaryChunks(words)[k + 1] ==
              if k + 2 < ChunkCount(|words|) then TrimAtLastPeriod(Join(Window(words, k + 1)))
              else Join(Window(words, k + 1))
  {
    SummaryChunksLayout(words);
    TrimAtLastPeriodSpec(Join(Window(words, k)));
  }
}
