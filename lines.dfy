/** The note content seen as lines: `content.split("\n")` and
    `lines.join("\n")`, the two conversions every todo operation goes
    through. */
module Lines {

  predicate NoNewline(s: string) {
    '\n' !in s
  }

  predicate AllNoNewline(lines: seq<string>) {
    forall k :: 0 <= k < |lines| ==> NoNewline(lines[k])
  }

  /** `s.split("\n")`: the pieces between newlines. There is always at
      least one piece (the empty string splits into `[""]`), and no piece
      holds a newline. */
  function Split(s: string): (lines: seq<string>)
    ensures |lines| >= 1
    ensures AllNoNewline(lines)
  {
    if |s| == 0 then [""]
    else
      var rest := Split(s[1..]);
      if s[0] == '\n' then [""] + rest
      else [[s[0]] + rest[0]] + rest[1..]
  }

  /** `lines.join("\n")`; an empty array joins to the empty string. */
  function Join(lines: seq<string>): string {
    if |lines| == 0 then ""
    else if |lines| == 1 then lines[0]
    else lines[0] + "\n" + Join(lines[1..])
  }

  /** Splitting and re-joining gives back the content exactly. */
  lemma {:induction false} JoinSplit(s: string)
    ensures Join(Split(s)) == s
  {
    if |s| > 0 {
      var rest := Split(s[1..]);
      JoinSplit(s[1..]);
      if s[0] == '\n' {
        assert Split(s)[1..] == rest;
        assert s == "\n" + s[1..];
      } else {
        var first := [s[0]] + rest[0];
        assert Split(s) == [first] + rest[1..];
        if |rest| == 1 {
          assert s == [s[0]] + s[1..];
        } else {
          assert Join(Split(s)) == first + "\n" + Join(rest[1..]);
          assert Join(rest) == rest[0] + "\n" + Join(rest[1..]);
          assert s == [s[0]] + s[1..];
        }
      }
    }
  }

  /** Splitting text that starts with a newline-free piece `a`: `a` is
      glued onto the first line of the rest. */
  lemma {:induction false} SplitPrefix(a: string, t: string)
    requires NoNewline(a)
    ensures Split(a + t) == [a + Split(t)[0]] + Split(t)[1..]
  {
    if |a| > 0 {
      SplitPrefix(a[1..], t);
      var st := Split(t);
      assert (a + t)[1..] == a[1..] + t;
      assert (a + t)[0] == a[0] != '\n';
      var rest := Split(a[1..] + t);
      assert rest[0] == a[1..] + st[0] && rest[1..] == st[1..];
      assert a + st[0] == [a[0]] + (a[1..] + st[0]);
    } else {
      assert a + t == t && a + Split(t)[0] == Split(t)[0];
      assert Split(t) == [Split(t)[0]] + Split(t)[1..];
    }
  }

  /** Joining newline-free lines and splitting again gives back the same
      lines: the converse round trip, for any non-empty array. */
  lemma {:induction false} SplitJoin(lines: seq<string>)
    requires |lines| >= 1 && AllNoNewline(lines)
    ensures Split(Join(lines)) == lines
  {
    if |lines| == 1 {
      SplitPrefix(lines[0], "");
      assert lines[0] + "" == lines[0];
    } else {
      var tail := lines[1..];
      SplitJoin(tail);
      assert Join(lines) == lines[0] + ("\n" + Join(tail));
      SplitPrefix(lines[0], "\n" + Join(tail));
      assert ("\n" + Join(tail))[1..] == Join(tail);
      assert Split("\n" + Join(tail)) == [""] + tail;
      assert lines[0] + "" == lines[0];
    }
  }

  /** The number of lines is one more than the number of newlines. */
  function NewlineCount(s: string): nat {
    if |s| == 0 then 0 else (if s[0] == '\n' then 1 else 0) + NewlineCount(s[1..])
  }

  lemma {:induction false} SplitLength(s: string)
    ensures |Split(s)| == NewlineCount(s) + 1
  {
    if |s| > 0 {
      SplitLength(s[1..]);
    }
  }
}
