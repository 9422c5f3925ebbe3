/** `EmailProcessor.clean_text`: whitespace collapse followed by a short-line
    filter. */
module Normalizer {
  import opened Text

  /** Lines with at most this many words are treated as signatures or
      automated text and dropped. */
  const ShortLineWords := 3

  /** The lines that survive the short-line filter, in order. */
  function KeepLongLines(lines: seq<string>): (kept: seq<string>)
    ensures |kept| <= |lines|
    ensures forall i :: 0 <= i < |kept| ==> |Words(kept[i])| > ShortLineWords
  {
    if |lines| == 0 then []
    else if |Words(lines[0])| > ShortLineWords then [lines[0]] + KeepLongLines(lines[1..])
    else KeepLongLines(lines[1..])
  }

  /** Every kept line is a line of the input. */
  lemma {:induction false} KeptLinesAreInput(lines: seq<string>)
    ensures forall x :: x in KeepLongLines(lines) ==> x in lines
    decreases |lines|
  {
    if |lines| > 0 {
      KeptLinesAreInput(lines[1..]);
      assert forall x :: x in lines[1..] ==> x in lines;
    }
  }

  /** Every input line of more than three words is kept. */
  lemma {:induction false} LongLineIsKept(lines: seq<string>, i: nat)
    requires i < |lines| && |Words(lines[i])| > ShortLineWords
    ensures lines[i] in KeepLongLines(lines)
    decreases i
  {
    var rest := lines[1..];
    var k := KeepLongLines(rest);
    if i == 0 {
      assert KeepLongLines(lines) == [lines[0]] + k;
    } else {
      assert rest[i - 1] == lines[i];
      LongLineIsKept(rest, i - 1);
      if |Words(lines[0])| > ShortLineWords {
        assert KeepLongLines(lines) == [lines[0]] + k;
      } else {
        assert KeepLongLines(lines) == k;
      }
    }
  }

  /** The filter works line by line and keeps the order: filtering two
      blocks of lines is filtering each and putting the results together. */
  lemma {:induction false} KeepLongLinesAppend(a: seq<string>, b: seq<string>)
    ensures KeepLongLines(a + b) == KeepLongLines(a) + KeepLongLines(b)
    decreases |a|
  {
    if |a| == 0 {
      assert a + b == b;
    } else {
      assert (a + b)[0] == a[0];
      assert (a + b)[1..] == a[1..] + b;
      KeepLongLinesAppend(a[1..], b);
      if |Words(a[0])| > ShortLineWords {
        assert [a[0]] + (KeepLongLines(a[1..]) + KeepLongLines(b)) ==
               ([a[0]] + KeepLongLines(a[1..])) + KeepLongLines(b);
      }
    }
  }

  /** `clean_text(text)`, step for step: collapse every whitespace run
      (newlines included) to one space, then split on newline, keep lines
      of more than three words and join them with spaces. Because the
      collapse already removed every newline, there is only one line. */
  function Clean(text: string): (r: string)
    ensures Normalized(r)
    ensures r == "" <==> |Words(text)| <= ShortLineWords
    ensures r != "" ==> Words(r) == Words(text)
  {
    var collapsed := Join(Words(text));
    var lines := SplitOn(collapsed, '\n');
    CleanIsWholeTextOrNothing(text);
    Join(KeepLongLines(lines))
  }

  /** The line filter acts on the whole text: the result is empty when the
      text has at most three words, and otherwise its words joined by single
      spaces. Properties of `Clean` are stated through this lemma. */
  lemma CleanIsWholeTextOrNothing(text: string)
    ensures var collapsed := Join(Words(text));
            Join(KeepLongLines(SplitOn(collapsed, '\n'))) ==
              if |Words(text)| <= ShortLineWords then "" else collapsed
    ensures Normalized(Join(Words(text)))
    ensures Words(Join(Words(text))) == Words(text)
    ensures Join(Words(text)) == "" <==> |Words(text)| == 0
  {
    var ws := Words(text);
    var collapsed := Join(ws);
    JoinHasNoNewline(ws);
    SplitOnAbsent(collapsed, '\n');
    WordsOfJoin(ws);
    JoinNormalized(ws);
  }

  /** Cleaning twice is cleaning once. */
  lemma CleanIdempotent(text: string)
    ensures Clean(Clean(text)) == Clean(text)
  {
    var c := Clean(text);
    if c == "" {
      assert Words("") == [];
    } else {
      assert Words(c) == Words(text);
    }
  }

  /** The words of the cleaned text: none for texts of at most three words,
      and all of them, in order, otherwise. */
  lemma CleanWords(text: string)
    ensures Words(Clean(text)) == if |Words(text)| <= ShortLineWords then [] else Words(text)
  {
    if Clean(text) == "" {
      assert Words("") == [];
    }
  }

  /** Two lines of two words each survive cleaning with all four words,
      although each line alone has only two: the filter never sees lines. */
  lemma ShortLinesAreNotFiltered(a: string, b: string, c: string, d: string)
    requires IsWord(a) && IsWord(b) && IsWord(c) && IsWord(d)
    ensures Words(Clean(a + " " + b + "\n" + c + " " + d)) == [a, b, c, d]
  {
    var text := a + " " + b + "\n" + c + " " + d;
    assert text == a + ([' '] + (b + (['\n'] + (c + ([' '] + d)))));
    WordsOfFour(a, b, c, d);
    CleanWords(text);
  }

  lemma WordsOfFour(a: string, b: string, c: string, d: string)
    requires IsWord(a) && IsWord(b) && IsWord(c) && IsWord(d)
    ensures Words(a + ([' '] + (b + (['\n'] + (c + ([' '] + d)))))) == [a, b, c, d]
  {
    WordsOfWordSep(a, ' ', b + (['\n'] + (c + ([' '] + d))));
    WordsOfThree(b, c, d);
  }

  lemma WordsOfThree(b: string, c: string, d: string)
    requires IsWord(b) && IsWord(c) && IsWord(d)
    ensures Words(b + (['\n'] + (c + ([' '] + d)))) == [b, c, d]
  {
    WordsOfWordSep(b, '\n', c + ([' '] + d));
    WordsOfWordSep(c, ' ', d);
    WordsOfWordThen(d, "");
    assert d + "" == d;
  }
}
