/**
  The few pieces of Python's `str` that the relay server relies on:
  `split()` with no separator (and its `maxsplit=1` form), `startswith`
  and the `!r` conversion used in error replies.
 */
module PyStr {

  /** The characters `str.isspace()` accepts; `split()` with no separator cuts on runs of them. */
  predicate IsSpace(c: char)
  {
    || c == ' '
    || ('\t' <= c <= '\r')
    || ('\U{1C}' <= c <= '\U{1F}')
    || c == '\U{85}' || c == '\U{A0}' || c == '\U{1680}'
    || ('\U{2000}' <= c <= '\U{200A}')
    || c == '\U{2028}' || c == '\U{2029}' || c == '\U{202F}' || c == '\U{205F}' || c == '\U{3000}'
  }

  predicate NoSpace(s: string)
  {
    forall i :: 0 <= i < |s| ==> !IsSpace(s[i])
  }

  predicate StartsWith(s: string, prefix: string)
  {
    |prefix| <= |s| && s[..|prefix|] == prefix
  }

  /** `s` without its leading whitespace. */
  function TrimLeft(s: string): (t: string)
    ensures |t| <= |s| && t == s[|s| - |t|..]
    ensures t == [] || !IsSpace(t[0])
    ensures forall i :: 0 <= i < |s| - |t| ==> IsSpace(s[i])
  {
    if s != [] && IsSpace(s[0]) then TrimLeft(s[1..]) else s
  }

  /** Length of the longest whitespace-free prefix of `s`. */
  function WordLength(s: string): (n: nat)
    ensures n <= |s| && NoSpace(s[..n])
    ensures n < |s| ==> IsSpace(s[n])
  {
    if s == [] || IsSpace(s[0]) then 0 else 1 + WordLength(s[1..])
  }

  /**
    `w` is the first word of `s`: once the leading whitespace is dropped,
    `w` is a prefix followed by whitespace or by the end of the string.
   */
  predicate LeadingWord(s: string, w: string)
  {
    var t := TrimLeft(s);
    |w| <= |t| && t[..|w|] == w && (|w| == |t| || IsSpace(t[|w|]))
  }

  /** What follows the first word `w` of `s`. */
  function AfterWord(s: string, w: string): string
    requires LeadingWord(s, w)
  {
    TrimLeft(s)[|w|..]
  }

  /** `s.split()`: the maximal whitespace-free runs of `s`, in order. */
  function Split(s: string): (words: seq<string>)
    ensures Words(words)
    decreases |s|
  {
    var t := TrimLeft(s);
    if t == [] then []
    else
      var n := WordLength(t);
      var rest := Split(t[n..]);
      WordsCons(t[..n], rest);
      [t[..n]] + rest
  }

  /** Every entry is a non-empty run of non-whitespace characters. */
  predicate Words(ws: seq<string>)
  {
    forall i :: 0 <= i < |ws| ==> ws[i] != [] && NoSpace(ws[i])
  }

  lemma WordsCons(w: string, rest: seq<string>)
    requires w != [] && NoSpace(w) && Words(rest)
    ensures Words([w] + rest)
  {
    forall i | 0 <= i < |rest| + 1
      ensures ([w] + rest)[i] != [] && NoSpace(([w] + rest)[i])
    {
      if i > 0 {
        assert ([w] + rest)[i] == rest[i - 1];
      }
    }
  }

  /**
    `s.split(maxsplit=1)`: the first word, then the rest of the string with
    its leading whitespace removed (trailing whitespace is kept), if any is left.
   */
  function SplitOnce(s: string): (parts: seq<string>)
    ensures |parts| <= 2
    ensures forall i :: 0 <= i < |parts| ==> parts[i] != []
    ensures |parts| >= 1 ==> NoSpace(parts[0])
    ensures |parts| == 2 ==> !IsSpace(parts[1][0])
    ensures parts == [] <==> AllSpace(s)
  {
    var t := TrimLeft(s);
    if t == [] then []
    else
      var n := WordLength(t);
      var rest := TrimLeft(t[n..]);
      if rest == [] then [t[..n]] else [t[..n], rest]
  }

  /** Trimming removes everything exactly when the string is blank. */
  lemma BlankIffTrimmedAway(s: string)
    ensures TrimLeft(s) == [] <==> AllSpace(s)
  {
    var t := TrimLeft(s);
    if t != [] {
      assert t[0] == s[|s| - |t|];
    }
  }

  /** True when `s` is empty or made only of whitespace. */
  predicate AllSpace(s: string)
  {
    forall i :: 0 <= i < |s| ==> IsSpace(s[i])
  }

  /** The words of `s.split()` start with the first word of `s`; there are none exactly when `s` is blank. */
  lemma SplitFirstWord(s: string)
    ensures Split(s) == [] <==> AllSpace(s)
    ensures Split(s) != [] ==> LeadingWord(s, Split(s)[0])
  {
    BlankIffTrimmedAway(s);
    var t := TrimLeft(s);
    if t != [] {
      var n := WordLength(t);
      assert Split(s) == [t[..n]] + Split(t[n..]);
      assert Split(s)[0] == t[..n];
    }
  }

  /**
    `s.split(maxsplit=1)` is the first word of `s`, followed by what comes
    after it with its leading whitespace dropped, when that is not empty.
   */
  lemma SplitOnceParts(s: string)
    ensures var parts := SplitOnce(s);
      && (|parts| >= 1 ==> LeadingWord(s, parts[0]))
      && (|parts| == 1 ==> AllSpace(AfterWord(s, parts[0])))
      && (|parts| == 2 ==> parts[1] == TrimLeft(AfterWord(s, parts[0])))
  {
    var t := TrimLeft(s);
    if t != [] {
      BlankIffTrimmedAway(t[WordLength(t)..]);
    }
  }

  lemma {:induction false} WordLengthOfWord(s: string)
    requires NoSpace(s)
    ensures WordLength(s) == |s|
  {
    if s != [] {
      WordLengthOfWord(s[1..]);
    }
  }

  /** `u.split() == [u]` holds exactly for non-empty strings without whitespace. */
  lemma {:induction false} SplitIsSingleton(u: string)
    ensures Split(u) == [u] <==> u != [] && NoSpace(u)
  {
    if Split(u) == [u] {
      var words := Split(u);
      assert Words(words);
      assert words[0] == u;
    }
    if u != [] && NoSpace(u) {
      SplitOfWord(u);
    }
  }

  lemma SplitOfWord(u: string)
    requires u != [] && NoSpace(u)
    ensures Split(u) == [u]
  {
    assert TrimLeft(u) == u;
    WordLengthOfWord(u);
    assert u[..|u|] == u;
    var empty := u[|u|..];
    assert empty == [];
    assert Split(empty) == [];
  }

  /** A single word splits to itself. */
  lemma SplitOnceOfWord(word: string)
    requires word != [] && NoSpace(word)
    ensures SplitOnce(word) == [word]
  {
    assert TrimLeft(word) == word;
    WordLengthOfWord(word);
    assert word[..|word|] == word && word[|word|..] == [];
  }

  /** A word followed by text that starts with whitespace: the word is the longest whitespace-free prefix. */
  lemma {:induction false} WordLengthBeforeSpace(word: string, tail: string)
    requires NoSpace(word) && tail != [] && IsSpace(tail[0])
    ensures WordLength(word + tail) == |word|
  {
    if word == [] {
      assert word + tail == tail;
    } else {
      assert (word + tail)[0] == word[0] && (word + tail)[1..] == word[1..] + tail;
      WordLengthBeforeSpace(word[1..], tail);
    }
  }

  /** `(word + " " + rest).split(maxsplit=1)` gives back the two halves. */
  lemma SplitOnceOfPair(word: string, rest: string)
    requires word != [] && NoSpace(word)
    requires rest != [] && !IsSpace(rest[0])
    ensures SplitOnce(word + " " + rest) == [word, rest]
  {
    var tail := " " + rest;
    var s := word + tail;
    assert word + " " + rest == s;
    assert s[0] == word[0];
    assert TrimLeft(s) == s;
    WordLengthBeforeSpace(word, tail);
    assert s[..|word|] == word && s[|word|..] == tail;
    assert tail[0] == ' ' && tail[1..] == rest;
    assert TrimLeft(tail) == TrimLeft(rest) == rest;
  }

  /** A command word that starts with `prefix`, a space and an argument. */
  lemma CommandWords(word: string, arg: string, prefix: string)
    requires word != [] && NoSpace(word) && StartsWith(word, prefix)
    requires arg != [] && !IsSpace(arg[0])
    ensures SplitOnce(word + " " + arg) == [word, arg]
    ensures StartsWith(word + " " + arg, prefix)
  {
    SplitOnceOfPair(word, arg);
    assert (word + " " + arg)[..|prefix|] == word[..|prefix|];
  }

  function EscapeChar(c: char, quote: char): string
  {
    if c == '\\' then "\\\\"
    else if c == quote then ['\\', quote]
    else if c == '\n' then "\\n"
    else if c == '\t' then "\\t"
    else if c == '\r' then "\\r"
    else [c]
  }

  function Escape(s: string, quote: char): (e: string)
    ensures |e| >= |s|
  {
    if s == [] then [] else EscapeChar(s[0], quote) + Escape(s[1..], quote)
  }

  /**
    `repr(s)` for a string: single quotes unless `s` holds a single quote and
    no double quote; backslash, the chosen quote, newline, tab and carriage
    return are escaped.
   */
  function Repr(s: string): string
  {
    var quote := if '\'' in s && '"' !in s then '"' else '\'';
    [quote] + Escape(s, quote) + [quote]
  }

  /** `repr` wraps the escaped text in matching quotes, double ones only when that spares escaping a single quote. */
  lemma ReprIsQuoted(s: string)
    ensures var r := Repr(s);
      && |r| >= |s| + 2
      && r[0] == r[|r| - 1] && (r[0] == '\'' || r[0] == '"')
      && (r[0] == '"' <==> '\'' in s && '"' !in s)
  {
  }
}
