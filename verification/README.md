# Email text analysis, modelled in Dafny

This project models the text-analysis core of the e-mail assistant's
`EmailProcessor` class (`nlp_processor.py`). It covers these operations:

- `clean_text`: collapse whitespace and drop short lines.
- `summarize_email`: split the text into chunks, summarize each with a model, combine the summaries, and fall back where steps fail.
- `analyze_sentiment`: score chunks with a model, average the scores, and map the average to a label.
- `extract_key_points`: score sentences by part of speech, position and length, take the top `num_points`, and return them in document order.
- `process_email`: apply the three analyses to the `body` field of a message.

The summarization and sentiment models are function parameters. So are NLTK's
`sent_tokenize`, `word_tokenize`, `pos_tag` and `str.lower`, and the stopword
set is a parameter value. Each function returns `None` where the real call
raises, and the model takes the branch of the handler that catches it. Two
failure routes have no branch: the outer handler of `analyze_sentiment`
(lines 160-162) and a sentiment result without a `score` key; "## Left out"
says why.

Modules, one per concern:

| file | module | models |
|---|---|---|
| wrappers.dfy | `Wrappers` | `Option` |
| text.dfy | `Text` | `str.split()`, `' '.join`, `str.split('\n')`, `rfind`, `xs[:k]` |
| normalizer.dfy | `Normalizer` | `clean_text` |
| chunker.dfy | `Chunker` | the two 500-word chunk loops |
| adapters.dfy | `Adapters` | the model and NLTK call signatures |
| summarizer.dfy | `Summarizer` | `summarize_email` |
| sentiment.dfy | `Sentiment` | `analyze_sentiment` |
| ranking.dfy | `Ranking` | Python's stable `sorted`/`list.sort` on positions, and rank |
| keypoints.dfy | `KeyPoints` | `extract_key_points` and its `sentence_scores` dictionary |
| processor.dfy | `Processor` | `process_email` |

## Behaviour of the code as written

The model follows the code, including these behaviours. Each one is proved as a lemma.

- **`clean_text` never sees a line.**
  - The whitespace collapse on line 33 has already replaced every newline, so the line filter on lines 35-36 sees the whole text as one line.
  - The result is `""` for a text of at most three words, and otherwise all of its words joined by single spaces.
  - Lemmas: `Normalizer.CleanWords` and `Normalizer.ShortLinesAreNotFiltered`.
  - So a line of two words is kept whenever the whole text has more than three words, even though the filter is meant for short lines.
- **Summarizing a cleaned text is not always a no-op.**
  - For 4 to 49 words, summarizing the cleaned text returns it unchanged (`Summarizer.SummarizeCleanIsFixpoint`).
  - For 1 to 3 words, cleaning gives `""`, and `""` summarizes to "No content to summarize." (`Summarizer.SummarizeCleanOfTinyText`).
- **The chunk-index adjustment has no effect.**
  - `i = i + ...` on line 64 rebinds the variable that `range` supplies, so the next chunk still starts at the next 500-word window.
  - The text after the last '.' of a cut chunk belongs to no chunk (`Chunker.CutChunkLosesTail`).
- **Duplicate sentences collapse.**
  - `sentence_scores` is a dictionary keyed by sentence text, and `sentences.index` finds the first occurrence.
  - So a repeated sentence has one dictionary entry. Each occurrence is scored again and overwrites that entry with the same score, so the sentence is ranked once and returned at most once (`KeyPoints.TableKeysDistinct`, `KeyPoints.PickInDocumentOrder`).
  - A repeated last sentence gets the first-position bonus if it also opened the text, and otherwise no position bonus (`KeyPoints.PositionBonus`).
  - So a sentence that occurs twice can never be returned twice, and its second occurrence adds nothing to the ranking.

## Model

| member | source | states |
|---|---|---|
| Text.WordsOfJoin | nlp_processor.py:33 | `' '.join(ws).split()` gives back `ws` for any list of whitespace-free, non-empty words |
| Text.Words | nlp_processor.py:33 | `str.split()` yields non-empty items without whitespace; `BlankIffNoWords` and `WordsOfJoin` relate it to `strip` and `' '.join` |
| Text.SplitOn | nlp_processor.py:35 | `str.split('\n')` is undone by joining the pieces with the separator, and no piece contains the separator |
| Text.BlankIffNoWords | nlp_processor.py:41 | `not text.strip()` holds exactly when the text has no words |
| Text.JoinNormalized | nlp_processor.py:33 | a space-joined word list has single spaces only between words and is empty exactly when the list is |
| Text.LastIndexOf | nlp_processor.py:61 | `rfind` gives -1 exactly when the character is absent, and otherwise an index holding it with none after it |
| Text.SliceEnd | nlp_processor.py:100 | the end index of a Python slice `[:k]` is `k` when `0 <= k <= n`, and `n` when `k >= n` |
| Normalizer.KeepLongLines | nlp_processor.py:35-36 | the filter never adds lines, and every line it keeps has more than three words |
| Normalizer.KeptLinesAreInput | nlp_processor.py:35-36 | every kept line is one of the input lines |
| Normalizer.LongLineIsKept | nlp_processor.py:36 | every input line with more than three words is kept |
| Normalizer.KeepLongLinesAppend | nlp_processor.py:36 | the filter decides line by line and keeps the input order |
| Normalizer.Clean | nlp_processor.py:30-37 | the result has single spaces only; it is empty exactly when the text has at most three words; otherwise it has the same words as the text |
| Normalizer.CleanIdempotent | nlp_processor.py:30-37 | cleaning a cleaned text changes nothing |
| Normalizer.CleanWords | nlp_processor.py:33-37 | the words of the cleaned text are none for a text of at most three words and all of the text's words otherwise |
| Normalizer.ShortLinesAreNotFiltered | nlp_processor.py:35-36 | two lines of two words each keep all four words after cleaning |
| Chunker.TrimAtLastPeriodSpec | nlp_processor.py:61-63 | the cut keeps a prefix of the chunk that ends at its last '.', or the whole chunk when it has no '.' |
| Chunker.SummaryChunkAt | nlp_processor.py:57-65 | one loop iteration yields a prefix of the joined window: the whole window when it is the last one or has no '.', otherwise the prefix ending at its last '.' |
| Chunker.SummaryChunks | nlp_processor.py:57-65 | the summary loop yields `ceil(n/500)` chunks, chunk `k` being what the cut makes of window `k` |
| Chunker.SentimentChunks | nlp_processor.py:126-128 | the sentiment loop yields `ceil(n/500)` chunks, chunk `k` being window `k` joined by spaces |
| Chunker.WindowBounds | nlp_processor.py:57-60 | window `k` starts inside the word list, and more words follow it exactly when it is not the last window |
| Chunker.SummaryChunksLayout | nlp_processor.py:57-65 | there are `ceil(n/500)` summary chunks; chunk `k` is window `k` joined, cut after its last '.' unless it is the final chunk |
| Chunker.SummaryChunkIsChunkOfWindow | nlp_processor.py:57-65 | the summary loop's chunk `k` is built from the `k`-th 500-word window of the text |
| Chunker.SentimentChunksLayout | nlp_processor.py:126-128 | there are `ceil(n/500)` sentiment chunks, chunk `k` being window `k` joined |
| Chunker.WindowSizes | nlp_processor.py:57-58 | every window has 1 to 500 words, and all but the last exactly 500 |
| Chunker.SentimentChunksCover | nlp_processor.py:126-128 | the sentiment chunks' words, concatenated in order, are every word of the text exactly once |
| Chunker.SentimentChunkWords | nlp_processor.py:127 | the words of sentiment chunk `k` are exactly window `k` |
| Chunker.SummaryChunkWordBound | nlp_processor.py:57-65 | no summary chunk has more than 500 words |
| Chunker.CutChunkLosesTail | nlp_processor.py:60-65 | a cut chunk is a strict prefix of its window's text, and the next chunk starts at the next window, so the cut-off text belongs to no chunk |
| Summarizer.ChunkLengths | nlp_processor.py:73-75 | the model's max length is a third of the chunk's word count clamped to `[min_length, max_length]`, with `max_length` winning when the two clash; the min length is `min_length` or ten below the max, whichever is smaller |
| Summarizer.DefaultChunkLengths | nlp_processor.py:73-75 | with the defaults 130 and 30, a summarized chunk gets a max length in 30..130 and a min length in 20..max-10 |
| Summarizer.ModelInput | nlp_processor.py:77-79 | a chunk of at most 1000 words reaches the model unchanged; a longer one as exactly its first 1000 words joined by single spaces |
| Summarizer.ChunkStep | nlp_processor.py:70-93 | a chunk of at most 50 words adds nothing; otherwise the model's first non-empty text is added, an empty answer adds nothing, a model failure adds the chunk's first sentence (nothing when there is none), and the step raises exactly when both the model and the sentence splitter fail |
| Summarizer.ShortChunksSkipModel | nlp_processor.py:70 | a chunk of at most 50 words is skipped whatever the model and splitter do |
| Summarizer.CollectSummaries | nlp_processor.py:68-93 | no chunks give no summaries; there is at most one summary per chunk; the loop raises exactly when some chunk's step raises |
| Summarizer.CollectSummariesAppend | nlp_processor.py:68-93 | one more chunk appends its text to the earlier summaries when its step produced one, keeps them when it skipped, and fails when it raised or an earlier chunk did: the summaries are the chunks' texts in chunk order |
| Summarizer.CombineSummaries | nlp_processor.py:95-105 | with summaries, the result is their plain join when it has at most `max_length` words, and otherwise a normalized text whose words are exactly the first `max_length` words of the join with "..." on the last; without summaries, the join of the first three (or fewer) sentences of the cleaned text, or a failure when the splitter raises |
| Summarizer.TruncatedWords | nlp_processor.py:99-100 | truncation keeps exactly `max_length` words, the last with "..." attached |
| Summarizer.OuterFallback | nlp_processor.py:107-113 | the last-resort result is the cleaned text's first sentence, or, when the splitter raises or finds none, its first 200 characters followed by "..." |
| Summarizer.Summarize | nlp_processor.py:39-50 | blank input gives "No content to summarize."; a non-blank text under 50 words gives its cleaned form; one of at most three words gives "" |
| Summarizer.SummarizeLongText | nlp_processor.py:44-53 | a text of 50 or more words takes the long path on its cleaned form, which is its words joined by single spaces |
| Summarizer.LongSummaryCases | nlp_processor.py:53-113 | on the long path the collected chunk summaries are combined; with none, the first three sentences are joined, or the first 200 characters with "..." are returned when the splitter raises; a raising chunk leads to the last-resort result |
| Summarizer.SummarizeCleanIsFixpoint | nlp_processor.py:46-50 | a cleaned text of 4 to 49 words is its own summary |
| Summarizer.SummarizeCleanOfTinyText | nlp_processor.py:41-50 | a text of 1 to 3 words cleans to "", summarizes to "", and its cleaned form summarizes to "No content to summarize." |
| Summarizer.ModelSeesWholeChunk | nlp_processor.py:77-79 | the 1000-word cap never changes a summary chunk |
| Summarizer.LongSummaryWordBound | nlp_processor.py:95-101 | when some chunk produced a summary, the final summary has at most `max_length` words |
| Sentiment.Scores | nlp_processor.py:130-137 | at most one score per chunk, each the score of some chunk; the list is empty exactly when every model call failed |
| Sentiment.ScoresAppend | nlp_processor.py:130-137 | one more chunk appends its score when the model call succeeds and adds nothing when it fails: the scores are the successful chunks' scores in chunk order |
| Sentiment.ChunkScore | nlp_processor.py:133 | the model is called on the chunk itself when it has at most 512 characters, and on its first 512 characters otherwise |
| Sentiment.ChunkScoreSeesPrefix | nlp_processor.py:133 | two chunks that agree on their first 512 characters get the same score |
| Sentiment.LabelOf | nlp_processor.py:147-153 | POSITIVE exactly above 0.6, NEGATIVE exactly below 0.4, NEUTRAL exactly in between |
| Sentiment.SumBounds | nlp_processor.py:144 | a sum of `n` scores in `[lo, hi]` lies in `[n*lo, n*hi]` |
| Sentiment.MeanBounds | nlp_processor.py:144-145 | the mean of scores in `[lo, hi]` lies in `[lo, hi]` |
| Sentiment.VerdictOf | nlp_processor.py:140-158 | the aggregated label is POSITIVE exactly when the confidence exceeds 0.6 and NEGATIVE exactly when it is below 0.4 |
| Sentiment.AnalyzeSentiment | nlp_processor.py:115-162 | the label is POSITIVE exactly when the confidence exceeds 0.6 and NEGATIVE exactly when it is below 0.4; a text of at most three words is NEUTRAL at 0.5 |
| Sentiment.ConfidenceInUnitInterval | nlp_processor.py:139-158 | if every model score lies in [0, 1], so does the confidence |
| Sentiment.VerdictIsMeanOfScores | nlp_processor.py:139-158 | the confidence is the mean of the surviving chunk scores, or 0.5 when every call failed |
| Ranking.SortChain | nlp_processor.py:200 | a stable sort of positions whose equal keys are already in position order orders them strictly by key, with ties broken by position |
| Ranking.StableSort | nlp_processor.py:200-203 | the sort returns a permutation of its input in ascending key order |
| Ranking.InsertSorted | nlp_processor.py:200 | inserting a position into a key-sorted list keeps it sorted |
| Ranking.RankOrder | nlp_processor.py:200 | `sorted(..., key=score, reverse=True)` over positions holds every position, each ahead of every position it outranks |
| Ranking.CountSort | nlp_processor.py:200 | sorting does not change how many elements outrank a position |
| Ranking.RankOrderIsRank | nlp_processor.py:200 | `sorted(..., key=score, reverse=True)` lists every position exactly once, and position `k` of the result has rank `k` |
| Ranking.TopPositions | nlp_processor.py:200 | the first `n` ranked positions are exactly the positions of rank below `n` |
| Ranking.TopOutranksRest | nlp_processor.py:200 | every selected position has a higher score than every position left out, or the same score and an earlier position |
| KeyPoints.TagScore | nlp_processor.py:179-185 | the part-of-speech score is at most two points per token |
| KeyPoints.TagScoreAppend | nlp_processor.py:180-185 | the part-of-speech score of a token list is the sum of its parts' scores |
| KeyPoints.TagScoreOfStopwords | nlp_processor.py:181 | stopwords score nothing whatever their tag |
| KeyPoints.TagScoreOfContentWords | nlp_processor.py:181-183 | non-stopword nouns and verbs score two points each |
| KeyPoints.TagScoreOfModifierWords | nlp_processor.py:184-185 | non-stopword adjectives and adverbs score one point each |
| KeyPoints.TagScoreOfOtherTags | nlp_processor.py:180-185 | tokens with any other tag score nothing |
| KeyPoints.FirstIndex | nlp_processor.py:188 | `list.index` returns a position holding the sentence, with no earlier one |
| KeyPoints.PositionBonus | nlp_processor.py:187-191 | 3 points exactly for the text's first sentence; 2 exactly for a sentence that only occurs last; otherwise 0 |
| KeyPoints.LengthBonus | nlp_processor.py:194-195 | 2 points exactly for more than 5 and fewer than 25 tokens, 0 otherwise |
| KeyPoints.SentenceScore | nlp_processor.py:175-195 | no score exactly when the tokenizer or the tagger raises; otherwise the sum of the part-of-speech score of the tagged tokens, the position bonus and the length bonus of the token count, which lies between the position bonus and two points per token plus 5 |
| KeyPoints.Lookup | nlp_processor.py:197 | a dictionary lookup succeeds exactly for the keys present; `PutLookup` states what it returns |
| KeyPoints.Put | nlp_processor.py:197 | assigning to an existing key keeps the key order; a new key goes last |
| KeyPoints.PutLookup | nlp_processor.py:197 | after assignment the key maps to the new score and every other key keeps its value |
| KeyPoints.ScoreTable | nlp_processor.py:172-197 | the dictionary holds each sentence seen once, in first-occurrence order, with its score; the loop fails exactly when some sentence's tools raise |
| KeyPoints.PutKeepsTableInv | nlp_processor.py:174-197 | one more loop iteration keeps the dictionary's invariant |
| KeyPoints.NewKeyKeepsOrder | nlp_processor.py:174-197 | a sentence met for the first time becomes the last key, which keeps the keys in first-occurrence order and covering every sentence seen |
| KeyPoints.TableKeysDistinct | nlp_processor.py:172-197 | the dictionary's keys are distinct and are exactly the text's sentences, so there are no more entries than sentences |
| KeyPoints.TopEntriesSpec | nlp_processor.py:200 | the chosen entries are the first `num_points` of the ranking, and no entry is chosen twice |
| KeyPoints.OrderedChain | nlp_processor.py:203 | the re-sort by `sentences.index` keeps the chosen entries and orders them strictly by first occurrence |
| KeyPoints.PickSize | nlp_processor.py:200-205 | the result has as many sentences as the slice `[:num_points]` of the dictionary allows, each a sentence of the text |
| KeyPoints.PickInDocumentOrder | nlp_processor.py:203-205 | the key points are strictly in document order, so no sentence appears twice |
| KeyPoints.PickSelectsTopRanks | nlp_processor.py:200-205 | a sentence is a key point exactly when fewer entries than the cut-off outrank it |
| KeyPoints.PickHoldsOrdered | nlp_processor.py:203-205 | an entry's sentence is returned exactly when the entry survives the top-`num_points` cut |
| KeyPoints.OrderedHoldsTopRanks | nlp_processor.py:200-203 | the entries left after the cut and re-sort are exactly those of rank below the cut-off |
| KeyPoints.ExtractKeyPoints | nlp_processor.py:164-209 | a sentence-splitter failure gives []; there are at most `num_points` key points, each a sentence of the cleaned text |
| KeyPoints.ExtractKeyPointsOfTable | nlp_processor.py:170-205 | once the text splits into sentences, the key points are the pick from the score dictionary, or none when scoring raises |
| KeyPoints.ExtractKeyPointsSpec | nlp_processor.py:164-209 | a tool failure on any sentence gives []; otherwise the key points are in strict document order |
| Processor.Body | nlp_processor.py:213 | `email_data.get('body', '')` |
| Processor.ProcessEmail | nlp_processor.py:211-220 | the original message is returned unchanged; there are at most five key points; the sentiment label agrees with its thresholds; blank bodies get "No content to summarize." and short bodies their cleaned text |
| Processor.AnalysisDependsOnlyOnBody | nlp_processor.py:211-220 | two messages with the same body get the same summary, sentiment and key points |
| Processor.BlankBodyAnalysis | nlp_processor.py:211-220 | a missing or blank body gives "No content to summarize.", NEUTRAL at 0.5, and no key points |

## Left out

- The summarization and sentiment models, `sent_tokenize`, `word_tokenize`, `pos_tag` and `str.lower` are not modelled internally. They are opaque function parameters, and a returned `None` stands for a raised exception.
- `print` calls on the error paths (lines 89, 108, 136, 161, 208) are not modelled. They produce output only.
- `analyze_sentiment`'s outer `except` (lines 160-162) has no branch in the model. No step it guards can raise in the model: chunking is total and the mean is taken only of a non-empty list.
- The sentiment model result is reduced to its `score` field, so a result without a `score` key is not represented.
- Scores are `real` numbers, not floating point. Rounding in `total_score / len(sentiments)` is not modelled.
- `summarize_email`'s `do_sample=False` and `truncation=True` are arguments to the opaque model and are not modelled.
- The NLTK `download` calls and the model loading in `__init__` are left out. They are set-up I/O.
- `gmail_reader.py` and `app.py` are not part of this model. They are mail fetching and the web front end.
- Summarizer.CombineSummaries: for a `max_length` below 1 the contract says only that a result exists; the body follows Python's slice `[:max_length]` with a negative bound, which no caller here uses.
- Summarizer.Summarize: its contract covers the shortcuts only; texts of 50 or more words are stated by `SummarizeLongText` and `LongSummaryCases`.
- Processor.BlankBodyAnalysis: the empty key-point list depends on the sentence splitter returning no sentences for the empty text, which NLTK does; the lemma states this as a requirement.
- Processor.ProcessEmail: states only the sentiment thresholds, key-point bound and summary shortcuts. The rest of each analysis is stated by the members of the Summarizer, Sentiment and KeyPoints modules.
