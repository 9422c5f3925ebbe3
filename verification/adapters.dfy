/** The external collaborators of the analysis code, as function values.
    Each returns `None` where the real call raises an exception. */
module Adapters {
  import opened Wrappers

  /** The summarization pipeline called on a text with `max_length` and
      `min_length`: the `summary_text` of every item it returns. */
  type SummaryModel = (string, int, int) -> Option<seq<string>>

  /** The sentiment pipeline called on a text: the `score` of its first item. */
  type SentimentModel = string -> Option<real>

  /** NLTK `sent_tokenize`. */
  type SentenceSplitter = string -> Option<seq<string>>

  /** NLTK `word_tokenize`. */
  type Tokenizer = string -> Option<seq<string>>

  /** NLTK `pos_tag`: one (token, tag) pair per token. */
  type Tagger = seq<string> -> Option<seq<(string, string)>>
}
