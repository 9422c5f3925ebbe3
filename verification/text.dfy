/** The string primitives of Python that the analysis code relies on:
    `str.split()`, `' '.join(...)`, `str.split(sep)`, `str.rfind(c)`,
    `str.strip()` and prefix slices `xs[:k]`. */
module Text {

  /** Python's `str.isspace()`: the code points that `str.split()` and
      `str.strip()` treat as whitespace. */
  predicate IsSpace(c: char) {
    c in SpaceChars
  }

  const SpaceChars: set<char> := {'\t', '\n', '\U{0B}', '\U{0C}', '\r', '\U{1C}', '\U{1D}', '\U{1E}', '\U{1F}', ' ',
    '\U{85}', '\U{A0}', '\U{1680}', '\U{2000}', '\U{2001}', '\U{2002}', '\U{2003}', '\U{2004}', '\U{2005}',
    '\U{2006}', '\U{2007}', '\U{2008}', '\U{2009}', '\U{200A}', '\U{2028}', '\U{2029}', '\U{202F}', '\U{205F}', '\U{3000}'}

  /** A word as `str.split()` yields it: non-empty, no whitespace. */
  predicate IsWord(w: string) {
    |w| > 0 && forall i :: 0 <= i < |w| ==> !IsSpace(w[i])
  }

  predicate AllWords(ws: seq<string>) {
    forall i :: 0 <= i < |ws| ==> IsWord(ws[i])
  }

  /** `not s.strip()`: the string is empty or whitespace only. */
  predicate IsBlank(s: string) {
    forall i :: 0 <= i < |s| ==> IsSpace(s[i])
  }

  /** The only whitespace is single ' ' characters between two non-space
      characters: no leading, trailing or doubled separators. */
  predicate Normalized(s: string) {
    forall i :: 0 <= i < |s| && IsSpace(s[i]) ==>
      s[i] == ' ' && 0 < i < |s| - 1 && !IsSpace(s[i - 1]) && !IsSpace(s[i + 1])
  }

  /** Length of the leading whitespace run of `s`. */
  function LeadingSpaces(s: string): (n: nat)
    ensures n <= |s|
    ensures forall i :: 0 <= i < n ==> IsSpace(s[i])
    ensures n < |s| ==> !IsSpace(s[n])
  {
    if |s| == 0 || !IsSpace(s[0]) then 0 else 1 + LeadingSpaces(s[1..])
  }

  /** Length of the leading non-whitespace run of `s`. */
  function LeadingWord(s: string): (n: nat)
    ensures n <= |s|
    ensures forall i :: 0 <= i < n ==> !IsSpace(s[i])
    ensures n < |s| ==> IsSpace(s[n])
  {
    if |s| == 0 || IsSpace(s[0]) then 0 else 1 + LeadingWord(s[1..])
  }

  /** `s.split()` with no separator: the maximal runs of non-whitespace
      characters, in order. */
  function Words(s: string): (ws: seq<string>)
    ensures AllWords(ws)
    decreases |s|
  {
    var t := s[LeadingSpaces(s)..];
    if |t| == 0 then []
    else
      var k := LeadingWord(t);
      [t[..k]] + Words(t[k..])
  }

  /** `' '.join(parts)`. */
  function Join(parts: seq<string>): string {
    if |parts| == 0 then ""
    else if |parts| == 1 then parts[0]
    else parts[0] + (" " + Join(parts[1..]))
  }

  /** `s.split(sep)` with an explicit one-character separator: always at
      least one piece, empty pieces kept. */
  function SplitOn(s: string, sep: char): (pieces: seq<string>)
    ensures |pieces| >= 1
    ensures JoinOn(pieces, sep) == s
    ensures forall i :: 0 <= i < |pieces| ==> sep !in pieces[i]
  {
    if |s| == 0 then [""]
    else
      var rest := SplitOn(s[1..], sep);
      assert [s[0]] + s[1..] == s;
      if s[0] == sep then
        JoinOnEmptyHead(rest, sep);
        [""] + rest
      else
        JoinOnExtendHead(s[0], rest, sep);
        [[s[0]] + rest[0]] + rest[1..]
  }

  /** An empty first piece contributes only its separator. */
  lemma JoinOnEmptyHead(rest: seq<string>, sep: char)
    requires |rest| >= 1
    ensures JoinOn([""] + rest, sep) == [sep] + JoinOn(rest, sep)
  {
    assert ([""] + rest)[1..] == rest;
  }

  /** Prepending a character to the first piece prepends it to the join. */
  lemma JoinOnExtendHead(c: char, rest: seq<string>, sep: char)
    requires |rest| >= 1
    ensures JoinOn([[c] + rest[0]] + rest[1..], sep) == [c] + JoinOn(rest, sep)
  {
    var pieces := [[c] + rest[0]] + rest[1..];
    if |rest| > 1 {
      assert pieces[1..] == rest[1..];
      assert JoinOn(pieces, sep) == ([c] + rest[0]) + ([sep] + JoinOn(rest[1..], sep));
    }
  }

  /** `sep.join(pieces)` for a one-character separator. */
  function JoinOn(pieces: seq<string>, sep: char): string {
    if |pieces| == 0 then ""
    else if |pieces| == 1 then pieces[0]
    else pieces[0] + ([sep] + JoinOn(pieces[1..], sep))
  }

  /** `s.rfind(c)`: the index of the last occurrence of `c`, or -1. */
  function LastIndexOf(s: string, c: char): (r: int)
    ensures -1 <= r < |s|
    ensures r == -1 <==> c !in s
    ensures 0 <= r ==> s[r] == c && forall i :: r < i < |s| ==> s[i] != c
  {
    if |s| == 0 then -1
    else if s[|s| - 1] == c then |s| - 1
    else LastIndexOf(s[..|s| - 1], c)
  }

  /** End index of the Python slice `xs[:k]` on a sequence of length `n`
      (a negative `k` counts from the end). */
  function SliceEnd(n: nat, k: int): (r: nat)
    ensures r <= n
    ensures 0 <= k <= n ==> r == k
    ensures n <= k ==> r == n
  {
    if k >= 0 then (if k <= n then k else n)
    else if n + k >= 0 then n + k
    else 0
  }

  /** The Python slice `xs[:k]`. */
  function Prefix<T>(xs: seq<T>, k: int): seq<T> {
    xs[..SliceEnd(|xs|, k)]
  }

  // ---------------------------------------------------------------------
  // Lemmas about split and join
  // ---------------------------------------------------------------------

  /** A suffix splits at any later index. */
  lemma SuffixSplit<T>(xs: seq<T>, i: nat, e: nat)
    requires i <= e <= |xs|
    ensures xs[i..] == xs[i..e] + xs[e..]
  {
  }

  /** A non-empty sequence is its head followed by its tail. */
  lemma HeadTail<T>(xs: seq<T>)
    requires |xs| > 0
    ensures [xs[0]] + xs[1..] == xs
  {
  }

  lemma WordsOfSpaceThen(x: string)
    ensures Words(" " + x) == Words(x)
  {
    WordsOfWhitespaceThen(' ', x);
  }

  lemma WordsOfWhitespaceThen(c: char, x: string)
    requires IsSpace(c)
    ensures Words([c] + x) == Words(x)
  {
    var s := [c] + x;
    assert s[1..] == x;
    assert LeadingSpaces(s) == 1 + LeadingSpaces(x);
    assert s[LeadingSpaces(s)..] == x[LeadingSpaces(x)..];
  }

  lemma {:induction false} LeadingWordOfWord(w: string, rest: string)
    requires IsWord(w)
    requires |rest| == 0 || IsSpace(rest[0])
    ensures LeadingWord(w + rest) == |w|
    decreases |w|
  {
    var s := w + rest;
    if |w| == 1 {
      assert s[1..] == rest;
    } else {
      assert s[1..] == w[1..] + rest;
      LeadingWordOfWord(w[1..], rest);
    }
  }

  /** A word followed by whitespace (or nothing) splits off as the first word. */
  lemma WordsOfWordThen(w: string, rest: string)
    requires IsWord(w)
    requires |rest| == 0 || IsSpace(rest[0])
    ensures Words(w + rest) == [w] + Words(rest)
  {
    var s := w + rest;
    assert !IsSpace(s[0]);
    assert LeadingSpaces(s) == 0;
    assert s[0..] == s;
    LeadingWordOfWord(w, rest);
    assert s[..|w|] == w;
    assert s[|w|..] == rest;
  }

  /** A word, a whitespace character and any text: the word comes first. */
  lemma WordsOfWordSep(w: string, c: char, rest: string)
    requires IsWord(w) && IsSpace(c)
    ensures Words(w + ([c] + rest)) == [w] + Words(rest)
  {
    WordsOfWordThen(w, [c] + rest);
    WordsOfWhitespaceThen(c, rest);
  }

  /** Splitting a space-join of words gives the words back. */
  lemma {:induction false} WordsOfJoin(ws: seq<string>)
    requires AllWords(ws)
    ensures Words(Join(ws)) == ws
    decreases |ws|
  {
    if |ws| == 0 {
    } else if |ws| == 1 {
      WordsOfWordThen(ws[0], "");
      assert ws[0] + "" == ws[0];
    } else {
      var rest := " " + Join(ws[1..]);
      assert ws[0] + rest == Join(ws);
      WordsOfWordThen(ws[0], rest);
      WordsOfSpaceThen(Join(ws[1..]));
      WordsOfJoin(ws[1..]);
      HeadTail(ws);
    }
  }

  /** A space-join of words is normalized. */
  lemma {:induction false} JoinNormalized(ws: seq<string>)
    requires AllWords(ws)
    ensures Normalized(Join(ws))
    ensures Join(ws) == "" <==> |ws| == 0
    decreases |ws|
  {
    if |ws| == 0 {
    } else if |ws| == 1 {
      assert IsWord(ws[0]);
    } else {
      var w := ws[0];
      var j := Join(ws[1..]);
      JoinNormalized(ws[1..]);
      assert IsWord(w);
      var s := w + (" " + j);
      assert s == Join(ws);
      assert !IsSpace(j[0]) && !IsSpace(j[|j| - 1]);
      forall i | 0 <= i < |s|
        ensures IsSpace(s[i]) ==>
          s[i] == ' ' && 0 < i < |s| - 1 && !IsSpace(s[i - 1]) && !IsSpace(s[i + 1])
      {
        if i < |w| {
          assert s[i] == w[i];
        } else if i == |w| {
          assert s[i - 1] == w[|w| - 1];
          assert s[i + 1] == j[0];
        } else {
          var k := i - |w| - 1;
          assert s[i] == j[k];
          if IsSpace(j[k]) {
            assert 0 < k < |j| - 1;
            assert s[i - 1] == j[k - 1];
            assert s[i + 1] == j[k + 1];
          }
        }
      }
    }
  }

  /** A blank string has no words and vice versa. */
  lemma BlankIffNoWords(s: string)
    ensures IsBlank(s) <==> Words(s) == []
  {
    var t := s[LeadingSpaces(s)..];
    if IsBlank(s) {
      assert LeadingSpaces(s) == |s|;
    } else {
      assert |t| > 0;
    }
  }

  /** Every character of a space-join of words is a word character or ' '. */
  lemma JoinHasNoNewline(ws: seq<string>)
    requires AllWords(ws)
    ensures '\n' !in Join(ws)
  {
    JoinNormalized(ws);
    var s := Join(ws);
    assert IsSpace('\n');
    assert forall i :: 0 <= i < |s| ==> s[i] != '\n';
  }

  /** A string without the separator splits into itself alone. */
  lemma {:induction false} SplitOnAbsent(s: string, sep: char)
    requires sep !in s
    ensures SplitOn(s, sep) == [s]
    decreases |s|
  {
    if |s| > 0 {
      assert sep !in s[1..];
      SplitOnAbsent(s[1..], sep);
      assert [s[0]] + s[1..] == s;
    }
  }

  /** A word cut anywhere splits into at most that one word. */
  lemma WordsOfWordPrefix(w: string, m: nat)
    requires IsWord(w) && m <= |w|
    ensures |Words(w[..m])| <= 1
  {
    if m > 0 {
      WordsOfWordThen(w[..m], "");
      assert w[..m] + "" == w[..m];
    }
  }

  /** A prefix of a space-join of words has at most as many words as were joined. */
  lemma {:induction false} WordsOfJoinPrefix(ws: seq<string>, m: nat)
    requires AllWords(ws)
    requires m <= |Join(ws)|
    ensures |Words(Join(ws)[..m])| <= |ws|
    decreases |ws|
  {
    if |ws| == 1 {
      WordsOfWordPrefix(ws[0], m);
    } else if |ws| > 1 {
      if m <= |ws[0]| + 1 {
        WordsOfJoinPrefixInHead(ws, m);
      } else {
        WordsOfJoinPrefixPastHead(ws, m);
        WordsOfJoinPrefix(ws[1..], m - |ws[0]| - 1);
      }
    }
  }

  /** A prefix that ends inside the first word, or just after it, has at
      most one word. */
  lemma WordsOfJoinPrefixInHead(ws: seq<string>, m: nat)
    requires AllWords(ws) && |ws| > 1
    requires m <= |ws[0]| + 1
    ensures |Words(Join(ws)[..m])| <= 1
  {
    var w := ws[0];
    var j := Join(ws[1..]);
    assert Join(ws) == w + (" " + j);
    if m <= |w| {
      assert Join(ws)[..m] == w[..m];
      WordsOfWordPrefix(w, m);
    } else {
      assert Join(ws)[..m] == w + " ";
      WordsOfWordThen(w, " ");
      WordsOfSpaceThen("");
      assert " " + "" == " ";
    }
  }

  /** A prefix that reaches past the first word is that word followed by a
      prefix of the join of the others. */
  lemma WordsOfJoinPrefixPastHead(ws: seq<string>, m: nat)
    requires AllWords(ws) && |ws| > 1
    requires |ws[0]| + 1 < m <= |Join(ws)|
    ensures m - |ws[0]| - 1 <= |Join(ws[1..])|
    ensures Words(Join(ws)[..m]) == [ws[0]] + Words(Join(ws[1..])[..m - |ws[0]| - 1])
  {
    var w := ws[0];
    var j := Join(ws[1..]);
    assert Join(ws) == w + (" " + j);
    var q := j[..m - |w| - 1];
    assert Join(ws)[..m] == w + (" " + q);
    WordsOfWordThen(w, " " + q);
    WordsOfSpaceThen(q);
  }

  /** Appending text to a join extends its last part. */
  lemma {:induction false} JoinAppend(ws: seq<string>, x: string)
    requires |ws| > 0
    ensures Join(ws) + x == Join(ws[..|ws| - 1] + [ws[|ws| - 1] + x])
    decreases |ws|
  {
    if |ws| == 1 {
      assert ws[..0] + [ws[0] + x] == [ws[0] + x];
    } else {
      var v := ws[..|ws| - 1] + [ws[|ws| - 1] + x];
      JoinAppend(ws[1..], x);
      assert v[0] == ws[0];
      assert v[1..] == ws[1..][..|ws[1..]| - 1] + [ws[1..][|ws[1..]| - 1] + x];
    }
  }
}
