/**
 Words of a line: the two ways the code splits text at separators, and joining words
 with single spaces.
 */
module Text {

  function WordEnd(s: string, separator: char -> bool): (n: nat)
    ensures n <= |s|
  {
    if s == [] || separator(s[0]) then 0 else 1 + WordEnd(s[1..], separator)
  }

  function GapEnd(s: string, separator: char -> bool): (n: nat)
    ensures n <= |s|
  {
    if s == [] || !separator(s[0]) then 0 else 1 + GapEnd(s[1..], separator)
  }

  /** Splits at runs of separators; a run at either end gives an empty word there. */
  function SplitCompressed(s: string, separator: char -> bool): seq<string>
    decreases |s|
  {
    var n := WordEnd(s, separator);
    if n == |s| then [s] else [s[..n]] + SplitCompressed(AfterWord(s, separator), separator)
  }

  /** What follows the first word and the separators after it. */
  function AfterWord(s: string, separator: char -> bool): (rest: string)
    requires WordEnd(s, separator) < |s|
    ensures |rest| < |s|
  {
    WordEndMeaning(s, separator);
    var n := WordEnd(s, separator);
    s[n + GapEnd(s[n..], separator)..]
  }

  /** The words between runs of separators, none of them empty. */
  function Words(s: string, separator: char -> bool): seq<string>
    decreases |s|
  {
    var t := s[GapEnd(s, separator)..];
    if t == [] then []
    else
      GapEndMeaning(s, separator);
      WordEndPositive(t, separator);
      [t[..WordEnd(t, separator)]] + Words(t[WordEnd(t, separator)..], separator)
  }

  predicate Free(s: string, separator: char -> bool) {
    forall i :: 0 <= i < |s| ==> !separator(s[i])
  }

  lemma {:induction false} WordEndMeaning(s: string, separator: char -> bool)
    ensures
      var n := WordEnd(s, separator);
      && Free(s[..n], separator)
      && (n < |s| ==> separator(s[n]) && GapEnd(s[n..], separator) > 0)
  {
    if s != [] && !separator(s[0]) {
      WordEndMeaning(s[1..], separator);
      var n := WordEnd(s, separator);
      assert s[..n] == [s[0]] + s[1..][..n - 1];
      assert s[n..] == s[1..][n - 1..];
    }
  }

  lemma {:induction false} GapEndMeaning(s: string, separator: char -> bool)
    ensures GapEnd(s, separator) < |s| ==> !separator(s[GapEnd(s, separator)])
  {
    if s != [] && separator(s[0]) {
      GapEndMeaning(s[1..], separator);
    }
  }

  lemma WordEndPositive(s: string, separator: char -> bool)
    requires s != [] && !separator(s[0])
    ensures WordEnd(s, separator) > 0
  {
  }

  /** A word followed by a separator, or by nothing, ends where it ends. */
  lemma {:induction false} WordEndOf(word: string, rest: string, separator: char -> bool)
    requires Free(word, separator) && (rest == [] || separator(rest[0]))
    ensures WordEnd(word + rest, separator) == |word|
  {
    if word == [] {
      assert word + rest == rest;
    } else {
      assert (word + rest)[1..] == word[1..] + rest;
      WordEndOf(word[1..], rest, separator);
    }
  }

  function Join(words: seq<string>): string {
    if words == [] then ""
    else if |words| == 1 then words[0]
    else words[0] + " " + Join(words[1..])
  }

  ghost predicate Plain(words: seq<string>, separator: char -> bool) {
    forall i :: 0 <= i < |words| ==> words[i] != [] && Free(words[i], separator)
  }

  lemma {:induction false} JoinStartsWithWord(words: seq<string>, separator: char -> bool)
    requires words != [] && Plain(words, separator)
    ensures Join(words) != [] && !separator(Join(words)[0])
  {
    assert words[0] != [];
    if |words| > 1 {
      assert Join(words)[0] == words[0][0];
    }
  }

  /** Splitting words joined by single spaces gives them back; only the first may be empty. */
  lemma {:induction false} SplitJoin(words: seq<string>, separator: char -> bool)
    requires separator(' ') && words != []
    requires Free(words[0], separator) && Plain(words[1..], separator)
    ensures SplitCompressed(Join(words), separator) == words
  {
    var s := Join(words);
    if |words| == 1 {
      WordEndOf(words[0], [], separator);
      assert words[0] + [] == words[0];
      assert words == [s];
    } else {
      var tail := Join(words[1..]);
      var rest := " " + tail;
      assert s == words[0] + rest;
      WordEndOf(words[0], rest, separator);
      var n := |words[0]|;
      assert s[..n] == words[0] && s[n..] == rest;
      JoinStartsWithWord(words[1..], separator);
      assert rest[1..] == tail;
      assert GapEnd(rest, separator) == 1;
      assert s[n + 1..] == tail;
      assert words[1..][0] != [] && Plain(words[1..][1..], separator);
      SplitJoin(words[1..], separator);
      assert words == [words[0]] + words[1..];
    }
  }

  ghost predicate AllFree(words: seq<string>, separator: char -> bool) {
    forall i :: 0 <= i < |words| ==> Free(words[i], separator)
  }

  lemma AllFreeCons(word: string, words: seq<string>, separator: char -> bool)
    requires Free(word, separator) && AllFree(words, separator)
    ensures AllFree([word] + words, separator)
  {
  }

  /** Every word of a split is free of separators. */
  lemma {:induction false} SplitIsFree(s: string, separator: char -> bool)
    ensures AllFree(SplitCompressed(s, separator), separator) && SplitCompressed(s, separator) != []
    decreases |s|
  {
    WordEndMeaning(s, separator);
    var n := WordEnd(s, separator);
    if n == |s| {
      assert s[..n] == s;
    } else {
      var rest := AfterWord(s, separator);
      SplitIsFree(rest, separator);
      AllFreeCons(s[..n], SplitCompressed(rest, separator), separator);
    }
  }

  lemma FirstWord(word: string, rest: string, separator: char -> bool)
    requires word != [] && Free(word, separator) && (rest == [] || separator(rest[0]))
    ensures Words(word + rest, separator) == [word] + Words(rest, separator)
  {
    var s := word + rest;
    WordEndOf(word, rest, separator);
    assert s[0] == word[0];
    assert s[0..] == s && s[..|word|] == word && s[|word|..] == rest;
  }

  lemma OneWord(word: string, separator: char -> bool)
    requires word != [] && Free(word, separator)
    ensures Words(word, separator) == [word]
  {
    FirstWord(word, [], separator);
    assert word + [] == word;
  }

  /** The words of words joined by single spaces. */
  lemma {:induction false} WordsJoin(words: seq<string>, separator: char -> bool)
    requires separator(' ') && Plain(words, separator)
    ensures Words(Join(words), separator) == words
  {
    if |words| == 1 {
      OneWord(words[0], separator);
    } else if words != [] {
      WordsJoin(words[1..], separator);
      JoinedWords(s => Words(s, separator), words) by {
        OneWord(words[0], separator);
        WordsAppend(words[0], Join(words[1..]), separator);
      }
    }
  }

  lemma JoinedWords(split: string -> seq<string>, words: seq<string>)
    requires |words| > 1 && split(words[0]) == [words[0]] && split(Join(words[1..])) == words[1..]
    requires split(words[0] + " " + Join(words[1..])) == split(words[0]) + split(Join(words[1..]))
    ensures split(Join(words)) == words
  {
  }

  /** The same after a leading space. */
  lemma WordsLed(words: seq<string>, separator: char -> bool)
    requires separator(' ') && Plain(words, separator)
    ensures Words(" " + Join(words), separator) == words
  {
    var s := " " + Join(words);
    WordsJoin(words, separator);
    SkipSeparator(s, separator);
    assert s[1..] == Join(words);
  }

  lemma SkipSeparator(s: string, separator: char -> bool)
    requires s != [] && separator(s[0])
    ensures Words(s, separator) == Words(s[1..], separator)
  {
    var t := s[1..];
    assert s[GapEnd(s, separator)..] == t[GapEnd(t, separator)..];
  }

  /** Text put together with a space between has the words of both parts. */
  lemma {:induction false} WordsAppend(a: string, b: string, separator: char -> bool)
    requires separator(' ')
    ensures Words(a + " " + b, separator) == Words(a, separator) + Words(b, separator)
    decreases |a|
  {
    if a == [] {
      NoWordAppend(b, separator);
    } else if separator(a[0]) {
      WordsAppend(a[1..], b, separator);
      GapAppend(a, b, separator);
    } else {
      var n := FirstWordEnd(a, separator);
      WordsAppend(a[n..], b, separator);
      WordsAppendWord(a[..n], a[n..], b, separator);
      assert a == a[..n] + a[n..];
    }
  }

  lemma NoWordAppend(b: string, separator: char -> bool)
    requires separator(' ')
    ensures Words("" + " " + b, separator) == Words("", separator) + Words(b, separator)
  {
    var s := "" + " " + b;
    SkipSeparator(s, separator);
    assert s[1..] == b;
  }

  lemma GapAppend(a: string, b: string, separator: char -> bool)
    requires a != [] && separator(a[0])
    requires Words(a[1..] + " " + b, separator) == Words(a[1..], separator) + Words(b, separator)
    ensures Words(a + " " + b, separator) == Words(a, separator) + Words(b, separator)
  {
    var s := a + " " + b;
    assert s[1..] == a[1..] + " " + b;
    SkipSeparator(s, separator);
    SkipSeparator(a, separator);
  }

  lemma FirstWordEnd(a: string, separator: char -> bool) returns (n: nat)
    requires a != [] && !separator(a[0])
    ensures 0 < n <= |a| && Free(a[..n], separator) && (n < |a| ==> separator(a[n]))
  {
    WordEndMeaning(a, separator);
    WordEndPositive(a, separator);
    n := WordEnd(a, separator);
  }

  lemma WordsAppendWord(word: string, rest: string, b: string, separator: char -> bool)
    requires separator(' ') && word != [] && Free(word, separator) && (rest == [] || separator(rest[0]))
    requires Words(rest + " " + b, separator) == Words(rest, separator) + Words(b, separator)
    ensures Words(word + rest + " " + b, separator) == Words(word + rest, separator) + Words(b, separator)
  {
    Regroup(s => Words(s, separator), word, rest, b) by {
      FirstWord(word, rest, separator);
      FirstWord(word, rest + " " + b, separator);
    }
  }

  lemma Regroup(words: string -> seq<string>, word: string, rest: string, b: string)
    requires words(word + rest) == [word] + words(rest)
    requires words(word + (rest + " " + b)) == [word] + words(rest + " " + b)
    requires words(rest + " " + b) == words(rest) + words(b)
    ensures words(word + rest + " " + b) == words(word + rest) + words(b)
  {
    assert word + rest + " " + b == word + (rest + " " + b);
  }

  lemma {:induction false} WordsArePlain(s: string, separator: char -> bool)
    ensures Plain(Words(s, separator), separator)
    decreases |s|
  {
    var t := s[GapEnd(s, separator)..];
    if t != [] {
      GapEndMeaning(s, separator);
      WordEndMeaning(t, separator);
      WordEndPositive(t, separator);
      WordsArePlain(t[WordEnd(t, separator)..], separator);
    }
  }
}
