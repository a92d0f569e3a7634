/** The two counters shown under the sidebar:
    `content.trim().split(/\s+/).filter(Boolean).length` words and
    `content.length` characters. */
module Counters {
  import opened Text

  /** `s.split(/\s+/)`: the pieces between maximal runs of whitespace.
      A leading run gives an empty first piece, a trailing run an empty
      last piece, and the empty string splits into `[""]`. */
  function SplitOnWhitespace(s: string): (parts: seq<string>)
    ensures |parts| >= 1
    ensures parts[0] == [] <==> s == [] || IsWhitespace(s[0])
    decreases |s|
  {
    if |s| == 0 then [""]
    else if IsWhitespace(s[0]) then [""] + SplitOnWhitespace(TrimStart(s[1..]))
    else
      var rest := SplitOnWhitespace(s[1..]);
      [[s[0]] + rest[0]] + rest[1..]
  }

  /** `filter(Boolean)` on strings: the non-empty ones, in order. */
  function NonEmpty(parts: seq<string>): seq<string> {
    if parts == [] then []
    else (if parts[0] == [] then [] else [parts[0]]) + NonEmpty(parts[1..])
  }

  /** The word counter. */
  function WordCount(content: string): nat {
    |NonEmpty(SplitOnWhitespace(Trim(content)))|
  }

  /** The character counter: `content.length`, in UTF-16 code units. */
  function CharCount(content: string): nat {
    Utf16Length(content)
  }

  /** Independent reference: the number of positions where a word starts,
      i.e. a non-whitespace character whose predecessor is whitespace or
      absent. `afterSpace` says whether the character before `s` was
      whitespace (or `s` is at the start). */
  function WordStarts(s: string, afterSpace: bool): nat {
    if s == [] then 0
    else (if afterSpace && !IsWhitespace(s[0]) then 1 else 0) + WordStarts(s[1..], IsWhitespace(s[0]))
  }

  /** There are no more word starts than characters. */
  lemma {:induction false} WordStartsBound(s: string, afterSpace: bool)
    ensures WordStarts(s, afterSpace) <= |s|
  {
    if s != [] {
      WordStartsBound(s[1..], IsWhitespace(s[0]));
    }
  }

  /** Whitespace holds no word start. */
  lemma {:induction false} WordStartsOfWhitespace(s: string, afterSpace: bool)
    requires AllWhitespace(s)
    ensures WordStarts(s, afterSpace) == 0
  {
    if s != [] {
      WordStartsOfWhitespace(s[1..], true);
    }
  }

  /** Leading whitespace holds no word start. */
  lemma {:induction false} WordStartsTrimStart(s: string)
    ensures WordStarts(TrimStart(s), true) == WordStarts(s, true)
  {
    if |s| > 0 && IsWhitespace(s[0]) {
      WordStartsTrimStart(s[1..]);
    }
  }

  /** Trailing whitespace holds no word start. */
  lemma {:induction false} WordStartsAppendWhitespace(s: string, w: string, afterSpace: bool)
    requires AllWhitespace(w)
    ensures WordStarts(s + w, afterSpace) == WordStarts(s, afterSpace)
  {
    if s == [] {
      assert s + w == w;
      WordStartsOfWhitespace(w, afterSpace);
    } else {
      assert (s + w)[1..] == s[1..] + w;
      WordStartsAppendWhitespace(s[1..], w, IsWhitespace(s[0]));
    }
  }

  /** Trimming keeps every word start. */
  lemma WordStartsTrim(s: string)
    ensures WordStarts(Trim(s), true) == WordStarts(s, true)
  {
    WordStartsTrimStart(s);
    WordStartsTrimEnd(TrimStart(s));
  }

  /** Dropping trailing whitespace keeps every word start. */
  lemma WordStartsTrimEnd(t: string)
    ensures WordStarts(TrimEnd(t), true) == WordStarts(t, true)
  {
    var r := TrimEnd(t);
    var w := t[|r|..];
    assert t == r + w;
    WordStartsAppendWhitespace(r, w, true);
  }

  /** The pieces of the whitespace split, non-empty ones counted, are the
      word starts. If the text goes on from a non-space character, its
      first piece continues a word begun before it, which is why that piece
      is left out of the count when `afterSpace` is false. */
  lemma {:induction false} SplitCountsWordStarts(s: string)
    ensures WordStarts(s, true) == |NonEmpty(SplitOnWhitespace(s))|
    ensures WordStarts(s, false) + (if s != [] && !IsWhitespace(s[0]) then 1 else 0)
            == |NonEmpty(SplitOnWhitespace(s))|
    decreases |s|
  {
    if s == [] {
    } else if IsWhitespace(s[0]) {
      var u := TrimStart(s[1..]);
      SplitCountsWordStarts(u);
      WordStartsTrimStart(s[1..]);
      assert SplitOnWhitespace(s) == [""] + SplitOnWhitespace(u);
      assert NonEmpty([""] + SplitOnWhitespace(u)) == NonEmpty(SplitOnWhitespace(u)) by {
        assert ([""] + SplitOnWhitespace(u))[1..] == SplitOnWhitespace(u);
      }
    } else {
      var rest := SplitOnWhitespace(s[1..]);
      SplitCountsWordStarts(s[1..]);
      var parts := [[s[0]] + rest[0]] + rest[1..];
      assert SplitOnWhitespace(s) == parts;
      assert parts[1..] == rest[1..];
      assert NonEmpty(parts) == [parts[0]] + NonEmpty(rest[1..]);
      assert rest == [rest[0]] + rest[1..];
      assert NonEmpty(rest) == (if rest[0] == [] then [] else [rest[0]]) + NonEmpty(rest[1..]);
    }
  }

  /** The word counter counts the maximal runs of non-whitespace
      characters. */
  lemma WordCountIsRuns(content: string)
    ensures WordCount(content) == WordStarts(content, true)
  {
    SplitCountsWordStarts(Trim(content));
    WordStartsTrim(content);
  }

  /** No words exactly when the content is empty or all whitespace. */
  lemma WordCountZeroIff(content: string)
    ensures WordCount(content) == 0 <==> AllWhitespace(content)
  {
    TrimEmptyIff(content);
    var t := Trim(content);
    TrimHasNoOuterWhitespace(content);
    var parts := SplitOnWhitespace(t);
    if t != [] {
      assert parts[0] != [];
      assert parts == [parts[0]] + parts[1..];
      assert NonEmpty(parts) == [parts[0]] + NonEmpty(parts[1..]);
    } else {
      assert parts == [""];
      assert NonEmpty(parts) == [] + NonEmpty(parts[1..]);
      assert parts[1..] == [];
    }
  }

  /** There are never more words than characters. */
  lemma WordCountBound(content: string)
    ensures WordCount(content) <= |content| <= CharCount(content)
  {
    WordCountIsRuns(content);
    WordStartsBound(content, true);
  }

  /** Word starts of the example text, one suffix at a time. */
  lemma ExampleWordStarts()
    ensures WordStarts("a  b\nc", true) == 3
  {
    assert WordStarts("c", true) == 1;
    assert WordStarts("\nc", false) == 1;
    assert WordStarts("b\nc", true) == 2;
    assert WordStarts(" b\nc", true) == 2;
    assert WordStarts("  b\nc", false) == 2;
  }

  /** Two of the counter's cases: nothing, and words separated by a
      double space and a newline. */
  lemma WordCountExamples()
    ensures WordCount("") == 0
    ensures WordCount("a  b\nc") == 3
    ensures CharCount("a  b\nc") == 6
  {
    WordCountIsRuns("a  b\nc");
    ExampleWordStarts();
    WordCountZeroIff("");
  }
}
