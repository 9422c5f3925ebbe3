/** `EmailProcessor.summarize_email`: shortcuts for empty and short texts,
    per-chunk calls of the summarization model with lengths derived from the
    chunk size, a per-chunk fallback to the chunk's first sentence, and the
    final join-and-truncate step. */
module Summarizer {
  import opened Wrappers
  import opened Text
  import opened Normalizer
  import opened Chunker
  import opened Adapters

  /** Returned for an empty or whitespace-only body. */
  const NoContent := "No content to summarize."
  /** The defaults of `max_length` and `min_length`. */
  const DefaultMaxLength := 130
  const DefaultMinLength := 30
  /** Cleaned texts with fewer words than this are returned as they are. */
  const ShortTextWords := 50
  /** Only chunks with more words than this are sent to the model. */
  const MinChunkWords := 50
  /** Chunks are cut to this many words before the model call. */
  const ModelWordCap := 1000
  /** Characters kept by the last-resort fallback. */
  const FallbackChars := 200
  const Ellipsis := "..."
  /** Sentences kept when no chunk produced a summary. */
  const FallbackSentences := 3

  function Min(a: int, b: int): int { if a <= b then a else b }
  function Max(a: int, b: int): int { if a >= b then a else b }

  /** The `max_length` and `min_length` passed to the model for one chunk. */
  datatype LengthBounds = LengthBounds(maxLen: int, minLen: int)

  /** The model's length targets for a chunk of `chunkWords` words: the
      maximum is a third of the chunk, clamped to `[minLength, maxLength]`
      (with `maxLength` winning when the two clash), and the minimum is
      `minLength` unless that comes within 10 of the maximum. */
  function ChunkLengths(chunkWords: nat, maxLength: int, minLength: int): (b: LengthBounds)
    ensures b.maxLen <= maxLength
    ensures minLength <= maxLength ==> minLength <= b.maxLen
    ensures minLength <= chunkWords / 3 <= maxLength ==> b.maxLen == chunkWords / 3
    ensures minLength <= maxLength <= chunkWords / 3 ==> b.maxLen == maxLength
    ensures chunkWords / 3 <= minLength <= maxLength ==> b.maxLen == minLength
    ensures maxLength < minLength ==> b.maxLen == maxLength
    ensures b.minLen <= minLength && b.minLen <= b.maxLen - 10
    ensures b.minLen == minLength || b.minLen == b.maxLen - 10
  {
    var hi := Min(maxLength, Max(minLength, chunkWords / 3));
    LengthBounds(hi, Min(minLength, hi - 10))
  }

  /** With the default targets, every chunk long enough to be summarized
      gets `30 <= max <= 130` and `20 <= min <= max - 10`. */
  lemma DefaultChunkLengths(chunkWords: nat)
    requires chunkWords > MinChunkWords
    ensures var b := ChunkLengths(chunkWords, DefaultMaxLength, DefaultMinLength);
            && DefaultMinLength <= b.maxLen <= DefaultMaxLength
            && 20 <= b.minLen <= DefaultMinLength
            && b.minLen <= b.maxLen - 10
  {
  }

  /** The text handed to the model: the chunk, cut to its first 1000 words
      if it has more. */
  function ModelInput(chunk: string): (r: string)
    ensures |Words(chunk)| <= ModelWordCap ==> r == chunk
    ensures |Words(chunk)| > ModelWordCap ==> Words(r) == Words(chunk)[..ModelWordCap]
    ensures |Words(chunk)| > ModelWordCap ==> Normalized(r)
    ensures |Words(r)| <= ModelWordCap
  {
    var ws := Words(chunk);
    if |ws| > ModelWordCap then
      assert AllWords(ws[..ModelWordCap]);
      WordsOfJoin(ws[..ModelWordCap]);
      JoinNormalized(ws[..ModelWordCap]);
      Join(ws[..ModelWordCap])
    else chunk
  }

  /** What one chunk contributes to the list of summaries: a text, nothing,
      or an exception that escapes to the outermost handler (the sentence
      splitter failing inside the per-chunk handler). */
  datatype Step = Append(text: string) | Skip | Raise

  /** The model call for one chunk: its (capped) text with the lengths
      derived from its word count. */
  function CallModel(chunk: string, maxLength: int, minLength: int, model: SummaryModel): Option<seq<string>> {
    var b := ChunkLengths(|Words(chunk)|, maxLength, minLength);
    model(ModelInput(chunk), b.maxLen, b.minLen)
  }

  /** One iteration of the per-chunk loop. */
  function ChunkStep(chunk: string, maxLength: int, minLength: int,
                     model: SummaryModel, sentences: SentenceSplitter): (r: Step)
    ensures !r.Skip? ==> |Words(chunk)| > MinChunkWords
    ensures r.Raise? ==> CallModel(chunk, maxLength, minLength, model).None? &&
                         sentences(ModelInput(chunk)).None?
    ensures r.Append? && CallModel(chunk, maxLength, minLength, model).Some? ==>
              |CallModel(chunk, maxLength, minLength, model).value| > 0 &&
              r.text == CallModel(chunk, maxLength, minLength, model).value[0] && r.text != ""
    ensures r.Append? && CallModel(chunk, maxLength, minLength, model).None? ==>
              sentences(ModelInput(chunk)).Some? && |sentences(ModelInput(chunk)).value| > 0 &&
              r.text == sentences(ModelInput(chunk)).value[0]
    ensures |Words(chunk)| > MinChunkWords && CallModel(chunk, maxLength, minLength, model).Some? ==>
              var outs := CallModel(chunk, maxLength, minLength, model).value;
              r == if |outs| > 0 && outs[0] != "" then Append(outs[0]) else Skip
    ensures (|Words(chunk)| > MinChunkWords && CallModel(chunk, maxLength, minLength, model).None? &&
             sentences(ModelInput(chunk)).Some?) ==>
              var ss := sentences(ModelInput(chunk)).value;
              r == if |ss| > 0 then Append(ss[0]) else Skip
    ensures (|Words(chunk)| > MinChunkWords && CallModel(chunk, maxLength, minLength, model).None? &&
             sentences(ModelInput(chunk)).None?) ==> r.Raise?
  {
    if |Words(chunk)| <= MinChunkWords then Skip
    else
      match CallModel(chunk, maxLength, minLength, model)
      case Some(outs) => if |outs| > 0 && outs[0] != "" then Append(outs[0]) else Skip
      case None =>
        match sentences(ModelInput(chunk))
        case None => Raise
        case Some(ss) => if |ss| > 0 then Append(ss[0]) else Skip
  }

  /** Chunks of at most 50 words are never sent to the model: what they
      contribute (nothing) does not depend on the model or the splitter. */
  lemma ShortChunksSkipModel(chunk: string, maxLength: int, minLength: int,
                             m1: SummaryModel, s1: SentenceSplitter,
                             m2: SummaryModel, s2: SentenceSplitter)
    requires |Words(chunk)| <= MinChunkWords
    ensures ChunkStep(chunk, maxLength, minLength, m1, s1) ==
            ChunkStep(chunk, maxLength, minLength, m2, s2)
    ensures ChunkStep(chunk, maxLength, minLength, m1, s1).Skip?
  {
  }

  /** The summaries of all chunks, in chunk order, or `None` when an
      exception escapes the per-chunk handler. */
  function CollectSummaries(chunks: seq<string>, maxLength: int, minLength: int,
                            model: SummaryModel, sentences: SentenceSplitter): (r: Option<seq<string>>)
    ensures |chunks| == 0 ==> r == Some([])
    ensures r.Some? ==> |r.value| <= |chunks|
    ensures r.None? <==> exists k :: 0 <= k < |chunks| &&
                           ChunkStep(chunks[k], maxLength, minLength, model, sentences).Raise?
  {
    if |chunks| == 0 then Some([])
    else
      var rest := CollectSummaries(chunks[1..], maxLength, minLength, model, sentences);
      assert forall k :: 0 < k < |chunks| ==> chunks[k] == chunks[1..][k - 1];
      StepBefore(ChunkStep(chunks[0], maxLength, minLength, model, sentences), rest)
  }

  /** The summaries after a first step `step`, given those of the later
      chunks. */
  function StepBefore(step: Step, later: Option<seq<string>>): Option<seq<string>> {
    match step
    case Raise => None
    case Skip => later
    case Append(t) => if later.None? then None else Some([t] + later.value)
  }

  /** The summaries after a last step `step`, given those of the earlier
      chunks. */
  function StepAfter(earlier: Option<seq<string>>, step: Step): Option<seq<string>> {
    match earlier
    case None => None
    case Some(prev) =>
      match step
      case Raise => None
      case Skip => Some(prev)
      case Append(t) => Some(prev + [t])
  }

  /** A first and a last step can be applied in either order. */
  lemma StepBeforeAfter(first: Step, acc: Option<seq<string>>, last: Step)
    ensures StepAfter(StepBefore(first, acc), last) == StepBefore(first, StepAfter(acc, last))
  {
    if acc.Some? && first.Append? && last.Append? {
      assert [first.text] + (acc.value + [last.text]) == ([first.text] + acc.value) + [last.text];
    }
  }

  /** `summaries.append(...)` over one more chunk: the summaries of the
      earlier chunks, followed by this chunk's text when it produced one;
      `None` as soon as any chunk raises. */
  lemma {:induction false} CollectSummariesAppend(chunks: seq<string>, x: string, maxLength: int, minLength: int,
                                                  model: SummaryModel, sentences: SentenceSplitter)
    ensures CollectSummaries(chunks + [x], maxLength, minLength, model, sentences) ==
              StepAfter(CollectSummaries(chunks, maxLength, minLength, model, sentences),
                        ChunkStep(x, maxLength, minLength, model, sentences))
    decreases |chunks|
  {
    var last := ChunkStep(x, maxLength, minLength, model, sentences);
    if |chunks| > 0 {
      assert (chunks + [x])[0] == chunks[0];
      assert (chunks + [x])[1..] == chunks[1..] + [x];
      CollectSummariesAppend(chunks[1..], x, maxLength, minLength, model, sentences);
      StepBeforeAfter(ChunkStep(chunks[0], maxLength, minLength, model, sentences),
                      CollectSummaries(chunks[1..], maxLength, minLength, model, sentences), last);
    } else {
      assert chunks + [x] == [x];
      assert [x][1..] == [];
      if last.Append? {
        assert [last.text] + [] == [] + [last.text];
      }
    }
  }

  /** The "combine summaries" step: join with spaces and, past `maxLength`
      words, keep the first `maxLength` words and append "..."; with no
      summaries at all, join the first three sentences of the cleaned text.
      `None` when the sentence splitter raises. */
  function CombineSummaries(summaries: seq<string>, maxLength: int,
                            cleaned: string, sentences: SentenceSplitter): (r: Option<string>)
    ensures |summaries| > 0 ==> r.Some?
    ensures |summaries| > 0 && maxLength >= 1 ==> |Words(r.value)| <= maxLength
    ensures |summaries| > 0 && |Words(Join(summaries))| <= maxLength ==> r == Some(Join(summaries))
    ensures |summaries| > 0 && 1 <= maxLength < |Words(Join(summaries))| ==>
              var ws := Words(Join(summaries));
              Words(r.value) == ws[..maxLength - 1] + [ws[maxLength - 1] + Ellipsis] &&
              Normalized(r.value)
    ensures |summaries| == 0 ==> (r.None? <==> sentences(cleaned).None?)
    ensures |summaries| == 0 && sentences(cleaned).Some? ==>
              var ss := sentences(cleaned).value;
              r == Some(Join(ss[..Min(|ss|, FallbackSentences)]))
  {
    if |summaries| > 0 then
      var joined := Join(summaries);
      var ws := Words(joined);
      if |ws| > maxLength then
        if maxLength >= 1 then
          TruncatedWords(ws, maxLength);
          Some(Join(Prefix(ws, maxLength)) + Ellipsis)
        else Some(Join(Prefix(ws, maxLength)) + Ellipsis)
      else Some(joined)
    else
      match sentences(cleaned)
      case None => None
      case Some(ss) => Some(Join(Prefix(ss, FallbackSentences)))
  }

  /** Truncation keeps exactly `m` words: the first `m - 1` unchanged and the
      `m`-th with "..." attached. */
  lemma TruncatedWords(ws: seq<string>, m: int)
    requires AllWords(ws)
    requires 1 <= m < |ws|
    ensures Words(Join(Prefix(ws, m)) + Ellipsis) == ws[..m - 1] + [ws[m - 1] + Ellipsis]
    ensures |Words(Join(Prefix(ws, m)) + Ellipsis)| == m
    ensures Normalized(Join(Prefix(ws, m)) + Ellipsis)
  {
    var p := ws[..m];
    assert Prefix(ws, m) == p;
    JoinAppend(p, Ellipsis);
    var q := p[..m - 1] + [p[m - 1] + Ellipsis];
    assert IsWord(p[m - 1] + Ellipsis) by {
      assert IsWord(ws[m - 1]);
      assert forall i :: 0 <= i < |Ellipsis| ==> Ellipsis[i] == '.';
    }
    forall i | 0 <= i < |q|
      ensures IsWord(q[i])
    {
      if i < m - 1 {
        assert q[i] == ws[i];
      }
    }
    WordsOfJoin(q);
    JoinNormalized(q);
    assert p[..m - 1] == ws[..m - 1];
  }

  /** The last-resort handler: the first sentence of the cleaned text, or
      its first 200 characters followed by "..." when the splitter raises or
      finds no sentence. */
  function OuterFallback(cleaned: string, sentences: SentenceSplitter): (r: string)
    ensures sentences(cleaned).Some? && |sentences(cleaned).value| > 0 ==> r == sentences(cleaned).value[0]
    ensures sentences(cleaned).None? || |sentences(cleaned).value| == 0 ==>
              r == cleaned[..Min(|cleaned|, FallbackChars)] + Ellipsis &&
              |r| == Min(|cleaned|, FallbackChars) + 3
  {
    match sentences(cleaned)
    case Some(ss) => if |ss| > 0 then ss[0] else Prefix(cleaned, FallbackChars) + Ellipsis
    case None => Prefix(cleaned, FallbackChars) + Ellipsis
  }

  /** `summarize_email(text, max_length, min_length)`. */
  function Summarize(text: string, maxLength: int, minLength: int,
                     model: SummaryModel, sentences: SentenceSplitter): (r: string)
    ensures IsBlank(text) ==> r == NoContent
    ensures !IsBlank(text) && |Words(text)| < ShortTextWords ==> r == Clean(text)
    ensures !IsBlank(text) && |Words(text)| <= ShortLineWords ==> r == ""
  {
    if IsBlank(text) then NoContent
    else
      var cleaned := Clean(text);
      CleanWords(text);
      if |Words(cleaned)| < ShortTextWords then cleaned
      else LongSummary(cleaned, maxLength, minLength, model, sentences)
  }

  /** The part of `summarize_email` after the short-text shortcut: chunk the
      cleaned text, collect the chunk summaries and combine them; an
      exception on the way goes to the last-resort handler. */
  function LongSummary(cleaned: string, maxLength: int, minLength: int,
                       model: SummaryModel, sentences: SentenceSplitter): string {
    match CollectSummaries(SummaryChunks(Words(cleaned)), maxLength, minLength, model, sentences)
    case None => OuterFallback(cleaned, sentences)
    case Some(summaries) =>
      match CombineSummaries(summaries, maxLength, cleaned, sentences)
      case None => OuterFallback(cleaned, sentences)
      case Some(s) => s
  }

  /** A cleaned text of 4 to 49 words is its own summary. */
  lemma SummarizeCleanIsFixpoint(text: string, maxLength: int, minLength: int,
                                 model: SummaryModel, sentences: SentenceSplitter)
    requires ShortLineWords < |Words(text)| < ShortTextWords
    ensures Summarize(Clean(text), maxLength, minLength, model, sentences) == Clean(text)
  {
    var c := Clean(text);
    CleanWords(text);
    BlankIffNoWords(c);
    CleanIdempotent(text);
  }

  /** A text of 1 to 3 words cleans to "", and "" summarizes to the
      no-content sentinel, not to itself. */
  lemma SummarizeCleanOfTinyText(text: string, maxLength: int, minLength: int,
                                 model: SummaryModel, sentences: SentenceSplitter)
    requires 0 < |Words(text)| <= ShortLineWords
    ensures Clean(text) == ""
    ensures Summarize(text, maxLength, minLength, model, sentences) == ""
    ensures Summarize(Clean(text), maxLength, minLength, model, sentences) == NoContent
  {
    BlankIffNoWords(text);
  }

  /** The model always receives a chunk unchanged: no chunk exceeds 1000
      words. */
  lemma ModelSeesWholeChunk(words: seq<string>)
    requires AllWords(words)
    ensures forall c :: c in SummaryChunks(words) ==> ModelInput(c) == c
  {
    SummaryChunkWordBound(words);
  }

  /** Whenever at least one chunk produced a summary, the summary of a long
      text has at most `maxLength` words. */
  lemma LongSummaryWordBound(text: string, maxLength: int, minLength: int,
                             model: SummaryModel, sentences: SentenceSplitter)
    requires maxLength >= 1
    requires |Words(text)| >= ShortTextWords
    ensures var summaries := CollectSummaries(SummaryChunks(Words(text)), maxLength, minLength, model, sentences);
            summaries.Some? && |summaries.value| > 0 ==>
              |Words(Summarize(text, maxLength, minLength, model, sentences))| <= maxLength
  {
    CleanWords(text);
    BlankIffNoWords(text);
  }

  /** A text of 50 or more words takes the long path on its cleaned form,
      whose words are the text's own. */
  lemma SummarizeLongText(text: string, maxLength: int, minLength: int,
                          model: SummaryModel, sentences: SentenceSplitter)
    requires |Words(text)| >= ShortTextWords
    ensures Clean(text) == Join(Words(text))
    ensures Words(Clean(text)) == Words(text)
    ensures Summarize(text, maxLength, minLength, model, sentences) ==
              LongSummary(Clean(text), maxLength, minLength, model, sentences)
  {
    CleanWords(text);
    BlankIffNoWords(text);
    CleanIsWholeTextOrNothing(text);
  }

  /** The long path: the chunk summaries, collected in chunk order, are
      combined; with none, the first three sentences are joined; an
      exception from a chunk or from the splitter leads to the first
      sentence or the first 200 characters. */
  lemma LongSummaryCases(cleaned: string, maxLength: int, minLength: int,
                         model: SummaryModel, sentences: SentenceSplitter)
    ensures var collected := CollectSummaries(SummaryChunks(Words(cleaned)), maxLength, minLength, model, sentences);
            var r := LongSummary(cleaned, maxLength, minLength, model, sentences);
            && (collected.None? ==> r == OuterFallback(cleaned, sentences))
            && (collected.Some? && |collected.value| > 0 ==>
                  Some(r) == CombineSummaries(collected.value, maxLength, cleaned, sentences))
            && (collected == Some([]) && sentences(cleaned).Some? ==>
                  r == Join(sentences(cleaned).value[..Min(|sentences(cleaned).value|, FallbackSentences)]))
            && (collected == Some([]) && sentences(cleaned).None? ==>
                  r == cleaned[..Min(|cleaned|, FallbackChars)] + Ellipsis)
  {
  }
}
