/** `EmailProcessor.analyze_sentiment`: one model call per 500-word window
    (cut to 512 characters), failed calls skipped, the scores averaged, and
    the average mapped to a label by two thresholds. */
module Sentiment {
  import opened Wrappers
  import opened Text
  import opened Normalizer
  import opened Chunker
  import opened Adapters

  /** Characters of a chunk passed to the sentiment model. */
  const ModelCharLimit := 512
  /** Averages above this are POSITIVE. */
  const PositiveAbove: real := 0.6
  /** Averages below this are NEGATIVE. */
  const NegativeBelow: real := 0.4
  /** Confidence reported when no chunk produced a score. */
  const DefaultConfidence: real := 0.5

  datatype Label = Positive | Negative | Neutral

  /** The `{'sentiment': ..., 'confidence': ...}` result. */
  datatype Verdict = Verdict(sentiment: Label, confidence: real)

  /** The score the model gives one chunk, from its first 512 characters. */
  function ChunkScore(chunk: string, model: SentimentModel): (r: Option<real>)
    ensures |chunk| <= ModelCharLimit ==> r == model(chunk)
    ensures |chunk| > ModelCharLimit ==> r == model(chunk[..ModelCharLimit])
  {
    assert chunk[..|chunk|] == chunk;
    model(Prefix(chunk, ModelCharLimit))
  }

  /** The model sees only the first 512 characters: chunks that agree on
      them get the same score. */
  lemma ChunkScoreSeesPrefix(c1: string, c2: string, model: SentimentModel)
    requires |c1| >= ModelCharLimit && |c2| >= ModelCharLimit
    requires c1[..ModelCharLimit] == c2[..ModelCharLimit]
    ensures ChunkScore(c1, model) == ChunkScore(c2, model)
  {
  }

  /** The model raised on every chunk. */
  predicate AllCallsFail(chunks: seq<string>, model: SentimentModel) {
    forall k :: 0 <= k < |chunks| ==> ChunkScore(chunks[k], model).None?
  }

  /** The scores of the chunks whose model call succeeded, in chunk order;
      failed chunks are left out. */
  function Scores(chunks: seq<string>, model: SentimentModel): (r: seq<real>)
    ensures |r| <= |chunks|
    ensures forall i :: 0 <= i < |r| ==>
              exists k :: 0 <= k < |chunks| && ChunkScore(chunks[k], model) == Some(r[i])
    ensures |r| == 0 <==> AllCallsFail(chunks, model)
  {
    if |chunks| == 0 then []
    else
      var rest := Scores(chunks[1..], model);
      assert forall k :: 0 < k < |chunks| ==> chunks[k] == chunks[1..][k - 1];
      match ChunkScore(chunks[0], model)
      case None => rest
      case Some(s) => [s] + rest
  }

  /** `sentiments.append(...)` over one more chunk: the earlier scores,
      followed by this chunk's score when its model call succeeds. */
  lemma {:induction false} ScoresAppend(chunks: seq<string>, x: string, model: SentimentModel)
    ensures Scores(chunks + [x], model) ==
              Scores(chunks, model) + (if ChunkScore(x, model).Some? then [ChunkScore(x, model).value] else [])
    decreases |chunks|
  {
    var tail := if ChunkScore(x, model).Some? then [ChunkScore(x, model).value] else [];
    if |chunks| == 0 {
      assert chunks + [x] == [x];
      assert [x][1..] == [];
      assert Scores([x], model) == tail;
    } else {
      assert (chunks + [x])[0] == chunks[0];
      assert (chunks + [x])[1..] == chunks[1..] + [x];
      ScoresAppend(chunks[1..], x, model);
      var rest := Scores(chunks[1..], model);
      match ChunkScore(chunks[0], model)
      case None =>
      case Some(v) => assert [v] + (rest + tail) == ([v] + rest) + tail;
    }
  }

  function Sum(xs: seq<real>): real {
    if |xs| == 0 then 0.0 else xs[0] + Sum(xs[1..])
  }

  /** The arithmetic mean `sum(scores) / len(scores)`. */
  function Mean(xs: seq<real>): real
    requires |xs| > 0
  {
    Sum(xs) / (|xs| as real)
  }

  /** The threshold mapping of an average score to a label. */
  function LabelOf(avg: real): (l: Label)
    ensures l == Positive <==> avg > PositiveAbove
    ensures l == Negative <==> avg < NegativeBelow
    ensures l == Neutral <==> NegativeBelow <= avg <= PositiveAbove
  {
    if avg > PositiveAbove then Positive
    else if avg < NegativeBelow then Negative
    else Neutral
  }

  /** Every score in `[lo, hi]` means the sum lies between `n*lo` and `n*hi`. */
  lemma {:induction false} SumBounds(xs: seq<real>, lo: real, hi: real)
    requires forall i :: 0 <= i < |xs| ==> lo <= xs[i] <= hi
    ensures (|xs| as real) * lo <= Sum(xs) <= (|xs| as real) * hi
  {
    if |xs| > 0 {
      SumBounds(xs[1..], lo, hi);
      var n := |xs[1..]| as real;
      assert (|xs| as real) * lo == n * lo + lo;
      assert (|xs| as real) * hi == n * hi + hi;
    }
  }

  /** The mean of scores in `[lo, hi]` lies in `[lo, hi]`. */
  lemma MeanBounds(xs: seq<real>, lo: real, hi: real)
    requires |xs| > 0
    requires forall i :: 0 <= i < |xs| ==> lo <= xs[i] <= hi
    ensures lo <= Mean(xs) <= hi
  {
    SumBounds(xs, lo, hi);
    var n := |xs| as real;
    var below := Sum(xs) - n * lo;
    var above := n * hi - Sum(xs);
    assert below / n >= 0.0;
    assert above / n >= 0.0;
    assert Mean(xs) - lo == below / n;
    assert hi - Mean(xs) == above / n;
  }

  /** The aggregation step: neutral at 0.5 when no chunk was scored,
      otherwise the thresholded mean. */
  function VerdictOf(scores: seq<real>): (v: Verdict)
    ensures v.sentiment == Positive <==> v.confidence > PositiveAbove
    ensures v.sentiment == Negative <==> v.confidence < NegativeBelow
  {
    if |scores| == 0 then Verdict(Neutral, DefaultConfidence)
    else
      var avg := Mean(scores);
      Verdict(LabelOf(avg), avg)
  }

  /** `analyze_sentiment(text)`. */
  function AnalyzeSentiment(text: string, model: SentimentModel): (v: Verdict)
    ensures v.sentiment == Positive <==> v.confidence > PositiveAbove
    ensures v.sentiment == Negative <==> v.confidence < NegativeBelow
    ensures |Words(text)| <= ShortLineWords ==> v == Verdict(Neutral, DefaultConfidence)
  {
    var chunks := SentimentChunks(Words(Clean(text)));
    CleanWords(text);
    SentimentChunksLayout(Words(Clean(text)));
    VerdictOf(Scores(chunks, model))
  }

  /** When the model's scores lie in [0, 1], so does the confidence. */
  lemma ConfidenceInUnitInterval(text: string, model: SentimentModel)
    requires forall s :: model(s).Some? ==> 0.0 <= model(s).value <= 1.0
    ensures 0.0 <= AnalyzeSentiment(text, model).confidence <= 1.0
  {
    var scores := Scores(SentimentChunks(Words(Clean(text))), model);
    assert AnalyzeSentiment(text, model) == VerdictOf(scores);
    if |scores| > 0 {
      forall i | 0 <= i < |scores|
        ensures 0.0 <= scores[i] <= 1.0
      {
        var chunks := SentimentChunks(Words(Clean(text)));
        var k :| 0 <= k < |chunks| && ChunkScore(chunks[k], model) == Some(scores[i]);
      }
      MeanBounds(scores, 0.0, 1.0);
    }
  }

  /** The verdict is the mean of the surviving chunk scores, or the neutral
      default when every model call failed. */
  lemma VerdictIsMeanOfScores(text: string, model: SentimentModel)
    ensures var chunks := SentimentChunks(Words(Clean(text)));
            AllCallsFail(chunks, model) ==> AnalyzeSentiment(text, model) == Verdict(Neutral, DefaultConfidence)
    ensures var chunks := SentimentChunks(Words(Clean(text)));
            !AllCallsFail(chunks, model) ==>
              (|Scores(chunks, model)| > 0 &&
               AnalyzeSentiment(text, model).confidence == Mean(Scores(chunks, model)))
  {
    var chunks := SentimentChunks(Words(Clean(text)));
    var scores := Scores(chunks, model);
    assert AnalyzeSentiment(text, model) == VerdictOf(scores);
  }
}
