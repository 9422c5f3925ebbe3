/** `EmailProcessor.process_email`: the three analyses of one message body. */
module Processor {
  import opened Wrappers
  import opened Text
  import opened Normalizer
  import opened Adapters
  import opened Summarizer
  import opened Sentiment
  import opened KeyPoints

  /** A message as the mail reader delivers it, restricted to its string
      fields such as `id`, `subject`, `sender`, `date` and `body`. Fields of
      other types, such as the `labels` list, are not represented: the
      analyses read only `body` and pass the message through unchanged. */
  type Message = map<string, string>

  /** The models and tools the processor holds. The summarizer and the key
      point extractor share NLTK's `sent_tokenize`. */
  datatype Models = Models(summary: SummaryModel, sentiment: SentimentModel, toolkit: Toolkit)

  datatype Analysis = Analysis(summary: string, sentiment: Verdict, keyPoints: seq<string>,
                               original: Message)

  /** `email_data.get('body', '')`. */
  function Body(email: Message): (b: string)
    ensures "body" in email ==> b == email["body"]
    ensures "body" !in email ==> b == ""
  {
    if "body" in email then email["body"] else ""
  }

  /** `process_email(email_data)` with the default lengths and five key
      points. */
  function ProcessEmail(email: Message, models: Models): (r: Analysis)
    ensures r.original == email
    ensures |r.keyPoints| <= DefaultNumPoints
    ensures r.sentiment.sentiment == Positive <==> r.sentiment.confidence > PositiveAbove
    ensures r.sentiment.sentiment == Negative <==> r.sentiment.confidence < NegativeBelow
    ensures IsBlank(Body(email)) ==> r.summary == NoContent
    ensures !IsBlank(Body(email)) && |Words(Body(email))| < ShortTextWords ==> r.summary == Clean(Body(email))
  {
    var body := Body(email);
    Analysis(Summarize(body, DefaultMaxLength, DefaultMinLength, models.summary, models.toolkit.sentences),
             AnalyzeSentiment(body, models.sentiment),
             ExtractKeyPoints(body, DefaultNumPoints, models.toolkit),
             email)
  }

  /** Only the body is analysed: two messages with the same body get the
      same summary, sentiment and key points. */
  lemma AnalysisDependsOnlyOnBody(e1: Message, e2: Message, models: Models)
    requires Body(e1) == Body(e2)
    ensures ProcessEmail(e1, models).(original := e2) == ProcessEmail(e2, models)
  {
  }

  /** A message without a body, or with a blank one, has no content to
      summarize, a neutral sentiment at confidence 0.5, and no key points
      when sentence splitting of the empty text finds no sentences. */
  lemma BlankBodyAnalysis(email: Message, models: Models)
    requires IsBlank(Body(email))
    requires models.toolkit.sentences("") == Some([])
    ensures ProcessEmail(email, models).summary == NoContent
    ensures ProcessEmail(email, models).sentiment == Verdict(Neutral, DefaultConfidence)
    ensures ProcessEmail(email, models).keyPoints == []
  {
    var body := Body(email);
    BlankIffNoWords(body);
    CleanWords(body);
    assert Clean(body) == "";
  }
}
