/** `EmailProcessor.extract_key_points`: score every sentence of the cleaned
    text, keep the best `num_points` and return them in document order. */
module KeyPoints {
  import opened Wrappers
  import opened Text
  import opened Normalizer
  import opened Adapters
  import opened Ranking

  const DefaultNumPoints := 5
  /** Per non-stopword token tagged as a noun or verb. */
  const ContentWordPoints := 2
  /** Per non-stopword token tagged as an adjective or adverb. */
  const ModifierWordPoints := 1
  const FirstSentencePoints := 3
  const LastSentencePoints := 2
  /** Points for a sentence of more than 5 and fewer than 25 tokens. */
  const MediumLengthPoints := 2
  const MediumLengthAbove := 5
  const MediumLengthBelow := 25

  /** The NLTK tools and data the scoring uses: `sent_tokenize`,
      `word_tokenize`, `pos_tag`, `str.lower` and the English stopword set. */
  datatype Toolkit = Toolkit(sentences: SentenceSplitter, tokens: Tokenizer, tag: Tagger,
                             lower: string -> string, stopwords: set<string>)

  predicate StartsWith(s: string, prefix: string) {
    |prefix| <= |s| && s[..|prefix|] == prefix
  }

  /** Penn Treebank noun and verb tags. */
  predicate IsContentTag(tag: string) {
    StartsWith(tag, "NN") || StartsWith(tag, "VB")
  }

  /** Penn Treebank adjective and adverb tags. */
  predicate IsModifierTag(tag: string) {
    StartsWith(tag, "JJ") || StartsWith(tag, "RB")
  }

  function TokenPoints(token: (string, string), stopwords: set<string>): nat {
    if token.0 in stopwords then 0
    else if IsContentTag(token.1) then ContentWordPoints
    else if IsModifierTag(token.1) then ModifierWordPoints
    else 0
  }

  /** The part-of-speech part of a sentence's score. */
  function TagScore(tagged: seq<(string, string)>, stopwords: set<string>): (s: nat)
    ensures s <= ContentWordPoints * |tagged|
  {
    if |tagged| == 0 then 0 else TokenPoints(tagged[0], stopwords) + TagScore(tagged[1..], stopwords)
  }

  /** The part-of-speech score of a token list is the sum over its parts. */
  lemma {:induction false} TagScoreAppend(x: seq<(string, string)>, y: seq<(string, string)>, stopwords: set<string>)
    ensures TagScore(x + y, stopwords) == TagScore(x, stopwords) + TagScore(y, stopwords)
    decreases |x|
  {
    if |x| == 0 {
      assert x + y == y;
    } else {
      assert (x + y)[1..] == x[1..] + y;
      TagScoreAppend(x[1..], y, stopwords);
    }
  }

  /** Stopwords score nothing, whatever their tag. */
  lemma {:induction false} TagScoreOfStopwords(tagged: seq<(string, string)>, stopwords: set<string>)
    requires forall k :: 0 <= k < |tagged| ==> tagged[k].0 in stopwords
    ensures TagScore(tagged, stopwords) == 0
    decreases |tagged|
  {
    if |tagged| > 0 {
      TagScoreOfStopwords(tagged[1..], stopwords);
    }
  }

  /** Non-stopword nouns and verbs score two points each, the most a token
      can score. */
  lemma {:induction false} TagScoreOfContentWords(tagged: seq<(string, string)>, stopwords: set<string>)
    requires forall k :: 0 <= k < |tagged| ==> tagged[k].0 !in stopwords && IsContentTag(tagged[k].1)
    ensures TagScore(tagged, stopwords) == ContentWordPoints * |tagged|
    decreases |tagged|
  {
    if |tagged| > 0 {
      TagScoreOfContentWords(tagged[1..], stopwords);
    }
  }

  /** Non-stopword adjectives and adverbs score one point each. */
  lemma {:induction false} TagScoreOfModifierWords(tagged: seq<(string, string)>, stopwords: set<string>)
    requires forall k :: 0 <= k < |tagged| ==>
               tagged[k].0 !in stopwords && !IsContentTag(tagged[k].1) && IsModifierTag(tagged[k].1)
    ensures TagScore(tagged, stopwords) == ModifierWordPoints * |tagged|
    decreases |tagged|
  {
    if |tagged| > 0 {
      TagScoreOfModifierWords(tagged[1..], stopwords);
    }
  }

  /** Tokens with any other tag score nothing, stopword or not. */
  lemma {:induction false} TagScoreOfOtherTags(tagged: seq<(string, string)>, stopwords: set<string>)
    requires forall k :: 0 <= k < |tagged| ==> !IsContentTag(tagged[k].1) && !IsModifierTag(tagged[k].1)
    ensures TagScore(tagged, stopwords) == 0
    decreases |tagged|
  {
    if |tagged| > 0 {
      TagScoreOfOtherTags(tagged[1..], stopwords);
    }
  }

  /** `xs.index(x)`: the first position holding `x`. */
  function FirstIndex(xs: seq<string>, x: string): (i: nat)
    requires x in xs
    ensures i < |xs| && xs[i] == x
    ensures forall k :: 0 <= k < i ==> xs[k] != x
  {
    if xs[0] == x then 0
    else
      assert x in xs[1..] by { var k :| 0 <= k < |xs| && xs[k] == x; assert xs[1..][k - 1] == x; }
      1 + FirstIndex(xs[1..], x)
  }

  /** The position part of a sentence's score. Positions are looked up with
      `sentences.index`, so they are first occurrences. */
  function PositionBonus(sentences: seq<string>, s: string): (r: nat)
    requires s in sentences
    ensures r == FirstSentencePoints <==> s == sentences[0]
    ensures r == LastSentencePoints <==> s != sentences[0] && s !in sentences[..|sentences| - 1]
    ensures r == 0 || r == FirstSentencePoints || r == LastSentencePoints
  {
    var i := FirstIndex(sentences, s);
    assert s in sentences[..|sentences| - 1] <==> i < |sentences| - 1 by {
      if i < |sentences| - 1 {
        assert sentences[..|sentences| - 1][i] == s;
      }
    }
    if i == 0 then FirstSentencePoints
    else if i == |sentences| - 1 then LastSentencePoints
    else 0
  }

  /** The length part of a sentence's score. */
  function LengthBonus(tokenCount: nat): (r: nat)
    ensures r == MediumLengthPoints <==> MediumLengthAbove < tokenCount < MediumLengthBelow
    ensures r == 0 <==> tokenCount <= MediumLengthAbove || MediumLengthBelow <= tokenCount
  {
    if MediumLengthAbove < tokenCount < MediumLengthBelow then MediumLengthPoints else 0
  }

  /** The score of one sentence, or `None` when a tool raises. */
  function SentenceScore(s: string, sentences: seq<string>, tk: Toolkit): (r: Option<int>)
    requires s in sentences
    ensures r.None? <==> tk.tokens(tk.lower(s)).None? || tk.tag(tk.tokens(tk.lower(s)).value).None?
    ensures r.Some? ==>
              var words := tk.tokens(tk.lower(s)).value;
              var tagged := tk.tag(words).value;
              PositionBonus(sentences, s) <= r.value <=
                ContentWordPoints * |tagged| + FirstSentencePoints + MediumLengthPoints
    ensures r.Some? ==>
              var words := tk.tokens(tk.lower(s)).value;
              r.value == TagScore(tk.tag(words).value, tk.stopwords) + PositionBonus(sentences, s) + LengthBonus(|words|)
  {
    match tk.tokens(tk.lower(s))
    case None => None
    case Some(words) =>
      match tk.tag(words)
      case None => None
      case Some(tagged) =>
        Some(TagScore(tagged, tk.stopwords) + PositionBonus(sentences, s) + LengthBonus(|words|))
  }

  // ---------------------------------------------------------------------
  // The `sentence_scores` dictionary
  // ---------------------------------------------------------------------

  /** One item of the dictionary. */
  datatype Entry = Entry(sentence: string, score: int)

  /** The dictionary's keys in insertion order. */
  function Keys(t: seq<Entry>): (ks: seq<string>)
    ensures |ks| == |t|
    ensures forall a :: 0 <= a < |t| ==> ks[a] == t[a].sentence
  {
    seq(|t|, a requires 0 <= a < |t| => t[a].sentence)
  }

  /** The dictionary's values in insertion order. */
  function Values(t: seq<Entry>): (sc: seq<int>)
    ensures |sc| == |t|
    ensures forall a :: 0 <= a < |t| ==> sc[a] == t[a].score
  {
    seq(|t|, a requires 0 <= a < |t| => t[a].score)
  }

  /** `d.get(x)`: the value of key `x`, or `None` when it is not a key. */
  function Lookup(t: seq<Entry>, x: string): (v: Option<int>)
    ensures v.Some? <==> x in Keys(t)
  {
    if x in Keys(t) then Some(t[FirstIndex(Keys(t), x)].score) else None
  }

  /** `d[e.sentence] = e.score`: an existing key keeps its place and gets
      the new value; a new key goes last. */
  function Put(t: seq<Entry>, e: Entry): (r: seq<Entry>)
    ensures e.sentence in Keys(t) ==> Keys(r) == Keys(t)
    ensures e.sentence !in Keys(t) ==> Keys(r) == Keys(t) + [e.sentence]
  {
    if e.sentence in Keys(t) then t[FirstIndex(Keys(t), e.sentence) := e] else t + [e]
  }

  /** Appending to a sequence does not move the first occurrence of an
      element already in it. */
  lemma FirstIndexAppend(xs: seq<string>, y: string, x: string)
    requires x in xs
    ensures FirstIndex(xs + [y], x) == FirstIndex(xs, x)
  {
    var i := FirstIndex(xs, x);
    var j := FirstIndex(xs + [y], x);
    assert (xs + [y])[i] == x;
    assert j <= i;
    assert xs[j] == x;
  }

  /** After `Put` the key maps to the new value and every other key keeps
      its value. */
  lemma PutLookup(t: seq<Entry>, e: Entry, x: string)
    ensures Lookup(Put(t, e), x) == if x == e.sentence then Some(e.score) else Lookup(t, x)
  {
    if e.sentence in Keys(t) {
      PutLookupExisting(t, e, x);
    } else {
      PutLookupNew(t, e, x);
    }
  }

  lemma PutLookupExisting(t: seq<Entry>, e: Entry, x: string)
    requires e.sentence in Keys(t)
    ensures Lookup(Put(t, e), x) == if x == e.sentence then Some(e.score) else Lookup(t, x)
  {
    var r := Put(t, e);
    var k := FirstIndex(Keys(t), e.sentence);
    assert r == t[k := e];
    assert Keys(r) == Keys(t);
    if x in Keys(t) {
      var i := FirstIndex(Keys(t), x);
      assert x == e.sentence <==> i == k;
    }
  }

  lemma PutLookupNew(t: seq<Entry>, e: Entry, x: string)
    requires e.sentence !in Keys(t)
    ensures Lookup(Put(t, e), x) == if x == e.sentence then Some(e.score) else Lookup(t, x)
  {
    var r := Put(t, e);
    var ks := Keys(t);
    assert r == t + [e];
    assert Keys(r) == ks + [e.sentence];
    if x in ks {
      FirstIndexAppend(ks, e.sentence, x);
    } else if x == e.sentence {
      assert FirstIndex(ks + [x], x) == |t|;
    }
  }

  /** Every key is a sentence first met among `sentences[..n]`. */
  predicate KeysSeen(sentences: seq<string>, n: nat, keys: seq<string>) {
    forall a :: 0 <= a < |keys| ==> keys[a] in sentences && FirstIndex(sentences, keys[a]) < n
  }

  /** Every sentence among `sentences[..n]` is a key. */
  predicate SeenAreKeys(sentences: seq<string>, n: nat, keys: seq<string>)
    requires n <= |sentences|
  {
    forall i :: 0 <= i < n ==> sentences[i] in keys
  }

  /** Keys appear in the order of their first occurrence. */
  predicate FirstOccurrenceOrder(sentences: seq<string>, keys: seq<string>) {
    forall a, b :: 0 <= a < b < |keys| ==>
      keys[a] in sentences && keys[b] in sentences &&
      FirstIndex(sentences, keys[a]) < FirstIndex(sentences, keys[b])
  }

  /** Every value is the score of its key. */
  predicate ScoresMatch(sentences: seq<string>, tk: Toolkit, t: seq<Entry>) {
    forall a :: 0 <= a < |t| ==>
      t[a].sentence in sentences && SentenceScore(t[a].sentence, sentences, tk) == Some(t[a].score)
  }

  /** What the loop over `sentences[..n]` keeps in the dictionary: each
      sentence once, in first-occurrence order, with its score. */
  predicate TableInv(sentences: seq<string>, tk: Toolkit, n: nat, t: seq<Entry>) {
    n <= |sentences| && KeysSeen(sentences, n, Keys(t)) && SeenAreKeys(sentences, n, Keys(t)) &&
    FirstOccurrenceOrder(sentences, Keys(t)) && ScoresMatch(sentences, tk, t)
  }

  /** The scoring loop over `sentences[..n]`; `None` when a tool raises on
      some sentence, which ends the whole extraction. */
  function ScoreTable(sentences: seq<string>, tk: Toolkit, n: nat): (r: Option<seq<Entry>>)
    requires n <= |sentences|
    ensures r.Some? ==> TableInv(sentences, tk, n, r.value)
    ensures r.None? <==> exists i :: 0 <= i < n && SentenceScore(sentences[i], sentences, tk).None?
  {
    if n == 0 then Some([])
    else
      var s := sentences[n - 1];
      var prev := ScoreTable(sentences, tk, n - 1);
      if prev.None? then None
      else
        var sc := SentenceScore(s, sentences, tk);
        if sc.None? then None
        else
          var t := prev.value;
          PutKeepsTableInv(sentences, tk, n, t, sc.value);
          Some(Put(t, Entry(s, sc.value)))
  }

  lemma PutKeepsTableInv(sentences: seq<string>, tk: Toolkit, n: nat, t: seq<Entry>, score: int)
    requires 0 < n <= |sentences|
    requires TableInv(sentences, tk, n - 1, t)
    requires SentenceScore(sentences[n - 1], sentences, tk) == Some(score)
    ensures TableInv(sentences, tk, n, Put(t, Entry(sentences[n - 1], score)))
  {
    if sentences[n - 1] in Keys(t) {
      PutExistingKeepsTableInv(sentences, tk, n, t, score);
    } else {
      PutNewKeepsTableInv(sentences, tk, n, t, score);
      NewKeyKeepsOrder(sentences, n, Keys(t));
    }
  }

  lemma PutExistingKeepsTableInv(sentences: seq<string>, tk: Toolkit, n: nat, t: seq<Entry>, score: int)
    requires 0 < n <= |sentences|
    requires TableInv(sentences, tk, n - 1, t)
    requires SentenceScore(sentences[n - 1], sentences, tk) == Some(score)
    requires sentences[n - 1] in Keys(t)
    ensures TableInv(sentences, tk, n, Put(t, Entry(sentences[n - 1], score)))
  {
    var s := sentences[n - 1];
    var r := Put(t, Entry(s, score));
    var k := FirstIndex(Keys(t), s);
    assert r == t[k := Entry(s, score)];
    assert ScoresMatch(sentences, tk, r) by {
      forall a | 0 <= a < |r|
        ensures r[a].sentence in sentences && SentenceScore(r[a].sentence, sentences, tk) == Some(r[a].score)
      {
        if a != k {
          assert r[a] == t[a];
        }
      }
    }
  }

  /** The new-key case of one loop iteration, for everything but the key
      order (`NewKeyKeepsOrder`). */
  lemma PutNewKeepsTableInv(sentences: seq<string>, tk: Toolkit, n: nat, t: seq<Entry>, score: int)
    requires 0 < n <= |sentences|
    requires TableInv(sentences, tk, n - 1, t)
    requires SentenceScore(sentences[n - 1], sentences, tk) == Some(score)
    requires sentences[n - 1] !in Keys(t)
    ensures var r := Put(t, Entry(sentences[n - 1], score));
            Keys(r) == Keys(t) + [sentences[n - 1]] && ScoresMatch(sentences, tk, r)
  {
    var r := Put(t, Entry(sentences[n - 1], score));
    assert r == t + [Entry(sentences[n - 1], score)];
  }

  /** Appending the first new sentence keeps the key invariants. */
  lemma NewKeyKeepsOrder(sentences: seq<string>, n: nat, keys: seq<string>)
    requires 0 < n <= |sentences|
    requires KeysSeen(sentences, n - 1, keys) && SeenAreKeys(sentences, n - 1, keys)
    requires FirstOccurrenceOrder(sentences, keys)
    requires sentences[n - 1] !in keys
    ensures var next := keys + [sentences[n - 1]];
            KeysSeen(sentences, n, next) && SeenAreKeys(sentences, n, next) &&
            FirstOccurrenceOrder(sentences, next)
  {
    var s := sentences[n - 1];
    var next := keys + [s];
    assert forall i :: 0 <= i < n - 1 ==> sentences[i] != s;
    assert FirstIndex(sentences, s) == n - 1;
    assert forall a :: 0 <= a < |keys| ==> next[a] == keys[a];
  }

  /** The dictionary holds every sentence exactly once. */
  lemma TableKeysDistinct(sentences: seq<string>, tk: Toolkit, t: seq<Entry>)
    requires TableInv(sentences, tk, |sentences|, t)
    ensures forall a, b :: 0 <= a < b < |t| ==> t[a].sentence != t[b].sentence
    ensures forall x :: x in sentences <==> x in Keys(t)
    ensures |t| <= |sentences|
  {
    var keys := Keys(t);
    forall x | x in keys
      ensures x in sentences
    {
      var a :| 0 <= a < |keys| && keys[a] == x;
    }
    forall x | x in sentences
      ensures x in keys
    {
      var i :| 0 <= i < |sentences| && sentences[i] == x;
    }
    if |keys| > 0 {
      FirstIndexAtLeast(sentences, keys, |keys| - 1);
    }
  }

  /** Keys in first-occurrence order have first indices at least their
      own positions. */
  lemma {:induction false} FirstIndexAtLeast(sentences: seq<string>, keys: seq<string>, a: nat)
    requires forall b :: 0 <= b < |keys| ==> keys[b] in sentences
    requires FirstOccurrenceOrder(sentences, keys)
    requires a < |keys|
    ensures FirstIndex(sentences, keys[a]) >= a
  {
    if a > 0 {
      FirstIndexAtLeast(sentences, keys, a - 1);
    }
  }

  // ---------------------------------------------------------------------
  // Selection
  // ---------------------------------------------------------------------

  /** `sentences.index(key)` for each dictionary entry. */
  function FirstIndices(sentences: seq<string>, t: seq<Entry>): (f: seq<int>)
    requires forall a :: 0 <= a < |t| ==> t[a].sentence in sentences
    ensures |f| == |t|
    ensures forall a :: 0 <= a < |t| ==> f[a] == FirstIndex(sentences, t[a].sentence)
  {
    seq(|t|, a requires 0 <= a < |t| => FirstIndex(sentences, t[a].sentence))
  }

  /** The entries chosen by `sorted(items, key=score, reverse=True)[:num_points]`. */
  function TopEntries(t: seq<Entry>, numPoints: int): (top: seq<nat>)
    ensures InRange(Values(t), top)
  {
    RankOrderIsRank(Values(t));
    Prefix(RankOrder(Values(t)), numPoints)
  }

  /** The chosen entries re-sorted by `sentences.index`. */
  function Ordered(sentences: seq<string>, t: seq<Entry>, numPoints: int): (o: seq<nat>)
    requires forall a :: 0 <= a < |t| ==> t[a].sentence in sentences
    ensures InRange(Values(t), o)
  {
    StableSort(FirstIndices(sentences, t), TopEntries(t, numPoints))
  }

  /** The chosen entries in document order, as sentences. */
  function Pick(sentences: seq<string>, tk: Toolkit, t: seq<Entry>, numPoints: int): (r: seq<string>)
    requires TableInv(sentences, tk, |sentences|, t)
    ensures |r| == |Ordered(sentences, t, numPoints)|
    ensures forall k :: 0 <= k < |r| ==> r[k] == t[Ordered(sentences, t, numPoints)[k]].sentence
  {
    var o := Ordered(sentences, t, numPoints);
    seq(|o|, k requires 0 <= k < |o| => t[o[k]].sentence)
  }

  /** `extract_key_points(text, num_points)`. */
  function ExtractKeyPoints(text: string, numPoints: int, tk: Toolkit): (r: seq<string>)
    ensures tk.sentences(Clean(text)).None? ==> r == []
    ensures numPoints >= 0 ==> |r| <= numPoints
    ensures |r| > 0 ==> tk.sentences(Clean(text)).Some? && |r| <= |tk.sentences(Clean(text)).value|
    ensures |r| > 0 ==> forall k :: 0 <= k < |r| ==> r[k] in tk.sentences(Clean(text)).value
  {
    match tk.sentences(Clean(text))
    case None => []
    case Some(sentences) =>
      match ScoreTable(sentences, tk, |sentences|)
      case None => []
      case Some(t) =>
        PickSize(sentences, tk, t, numPoints);
        TableKeysDistinct(sentences, tk, t);
        Pick(sentences, tk, t, numPoints)
  }

  /** The key `sentences.index` increases strictly along the dictionary. */
  lemma FirstIndicesIncrease(sentences: seq<string>, tk: Toolkit, t: seq<Entry>)
    requires TableInv(sentences, tk, |sentences|, t)
    ensures forall p, q :: 0 <= p < q < |t| ==> FirstIndices(sentences, t)[p] < FirstIndices(sentences, t)[q]
  {
  }

  /** The top entries are the first `num_points` of the ranking and are
      distinct positions. */
  lemma TopEntriesSpec(t: seq<Entry>, numPoints: int)
    ensures TopEntries(t, numPoints) == RankOrder(Values(t))[..SliceEnd(|t|, numPoints)]
    ensures forall a, b :: 0 <= a < b < |TopEntries(t, numPoints)| ==>
              TopEntries(t, numPoints)[a] != TopEntries(t, numPoints)[b]
  {
    var sc := Values(t);
    RankOrderIsRank(sc);
    var top := TopEntries(t, numPoints);
    forall a, b | 0 <= a < b < |top|
      ensures top[a] != top[b]
    {
      assert Before(Negated(sc), top[a], top[b]);
    }
  }

  /** The re-sort puts the chosen entries strictly in document order. */
  lemma OrderedChain(sentences: seq<string>, tk: Toolkit, t: seq<Entry>, numPoints: int)
    requires TableInv(sentences, tk, |sentences|, t)
    ensures |Ordered(sentences, t, numPoints)| == SliceEnd(|t|, numPoints)
    ensures Chain(FirstIndices(sentences, t), Ordered(sentences, t, numPoints))
    ensures multiset(Ordered(sentences, t, numPoints)) == multiset(TopEntries(t, numPoints))
  {
    var key := FirstIndices(sentences, t);
    var top := TopEntries(t, numPoints);
    TopEntriesSpec(t, numPoints);
    FirstIndicesIncrease(sentences, tk, t);
    assert TiesInOrder(key, top) by {
      forall a, b | 0 <= a < b < |top|
        ensures key[top[a]] == key[top[b]] ==> top[a] < top[b]
      {
        assert top[a] != top[b];
      }
    }
    SortChain(key, top);
  }

  /** There are as many key points as the slice `[:num_points]` of the
      dictionary allows, each a sentence of the text. */
  lemma PickSize(sentences: seq<string>, tk: Toolkit, t: seq<Entry>, numPoints: int)
    requires TableInv(sentences, tk, |sentences|, t)
    ensures |Pick(sentences, tk, t, numPoints)| == SliceEnd(|t|, numPoints)
    ensures forall k :: 0 <= k < |Pick(sentences, tk, t, numPoints)| ==>
              Pick(sentences, tk, t, numPoints)[k] in sentences
  {
    OrderedChain(sentences, tk, t, numPoints);
  }

  /** The key points are strictly in document order, so no sentence is
      returned twice. */
  lemma PickInDocumentOrder(sentences: seq<string>, tk: Toolkit, t: seq<Entry>, numPoints: int)
    requires TableInv(sentences, tk, |sentences|, t)
    ensures forall a, b :: 0 <= a < b < |Pick(sentences, tk, t, numPoints)| ==>
              FirstIndex(sentences, Pick(sentences, tk, t, numPoints)[a]) <
              FirstIndex(sentences, Pick(sentences, tk, t, numPoints)[b])
  {
    var key := FirstIndices(sentences, t);
    var o := Ordered(sentences, t, numPoints);
    var r := Pick(sentences, tk, t, numPoints);
    OrderedChain(sentences, tk, t, numPoints);
    FirstIndicesIncrease(sentences, tk, t);
    forall a, b | 0 <= a < b < |r|
      ensures FirstIndex(sentences, r[a]) < FirstIndex(sentences, r[b])
    {
      assert Before(key, o[a], o[b]);
    }
  }

  /** A sentence is a key point exactly when fewer entries than the
      cut-off outrank it: a higher score, or the same score and an earlier
      first occurrence. */
  lemma PickSelectsTopRanks(sentences: seq<string>, tk: Toolkit, t: seq<Entry>, numPoints: int, j: nat)
    requires TableInv(sentences, tk, |sentences|, t)
    requires j < |t|
    ensures t[j].sentence in Pick(sentences, tk, t, numPoints) <==>
              Rank(Values(t), j) < SliceEnd(|t|, numPoints)
  {
    PickHoldsOrdered(sentences, tk, t, numPoints, j);
    OrderedHoldsTopRanks(sentences, tk, t, numPoints, j);
  }

  /** An entry's sentence is picked exactly when the entry is among the
      re-sorted ones; keys are distinct, so no other entry can stand in. */
  lemma PickHoldsOrdered(sentences: seq<string>, tk: Toolkit, t: seq<Entry>, numPoints: int, j: nat)
    requires TableInv(sentences, tk, |sentences|, t)
    requires j < |t|
    ensures t[j].sentence in Pick(sentences, tk, t, numPoints) <==> j in Ordered(sentences, t, numPoints)
  {
    var o := Ordered(sentences, t, numPoints);
    var r := Pick(sentences, tk, t, numPoints);
    TableKeysDistinct(sentences, tk, t);
    if t[j].sentence in r {
      var k :| 0 <= k < |r| && r[k] == t[j].sentence;
      assert t[o[k]].sentence == t[j].sentence;
      assert o[k] == j;
    }
    if j in o {
      var k :| 0 <= k < |o| && o[k] == j;
      assert r[k] == t[j].sentence;
    }
  }

  /** The re-sorted entries are the positions of rank below the cut-off. */
  lemma OrderedHoldsTopRanks(sentences: seq<string>, tk: Toolkit, t: seq<Entry>, numPoints: int, j: nat)
    requires TableInv(sentences, tk, |sentences|, t)
    requires j < |t|
    ensures j in Ordered(sentences, t, numPoints) <==> Rank(Values(t), j) < SliceEnd(|t|, numPoints)
  {
    var o := Ordered(sentences, t, numPoints);
    var top := TopEntries(t, numPoints);
    OrderedChain(sentences, tk, t, numPoints);
    TopEntriesSpec(t, numPoints);
    TopPositions(Values(t), SliceEnd(|t|, numPoints));
    assert j in o <==> j in multiset(o);
    assert j in top <==> j in multiset(top);
  }

  /** When the text splits into sentences: a tool failure on any sentence
      yields no key points; otherwise the key points are in strict document
      order. */
  lemma ExtractKeyPointsSpec(text: string, numPoints: int, tk: Toolkit)
    requires tk.sentences(Clean(text)).Some?
    ensures var sentences := tk.sentences(Clean(text)).value;
            var r := ExtractKeyPoints(text, numPoints, tk);
            ((exists i :: 0 <= i < |sentences| && SentenceScore(sentences[i], sentences, tk).None?) ==> r == []) &&
            (forall a, b :: 0 <= a < b < |r| ==>
               r[a] in sentences && r[b] in sentences &&
               FirstIndex(sentences, r[a]) < FirstIndex(sentences, r[b]))
  {
    var sentences := tk.sentences(Clean(text)).value;
    var table := ScoreTable(sentences, tk, |sentences|);
    var r := ExtractKeyPoints(text, numPoints, tk);
    ExtractKeyPointsOfTable(text, numPoints, tk);
    if table.Some? {
      assert r == Pick(sentences, tk, table.value, numPoints);
      PickSize(sentences, tk, table.value, numPoints);
      PickInDocumentOrder(sentences, tk, table.value, numPoints);
    } else {
      assert r == [];
    }
  }

  /** Once the text splits into sentences, the key points are the pick
      from the score dictionary, or none when scoring raises. */
  lemma ExtractKeyPointsOfTable(text: string, numPoints: int, tk: Toolkit)
    requires tk.sentences(Clean(text)).Some?
    ensures var sentences := tk.sentences(Clean(text)).value;
            var table := ScoreTable(sentences, tk, |sentences|);
            && (table.None? ==> ExtractKeyPoints(text, numPoints, tk) == [])
            && (table.Some? ==> ExtractKeyPoints(text, numPoints, tk) == Pick(sentences, tk, table.value, numPoints))
  {
  }
}
