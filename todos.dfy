/** The todo view of a note (`parseTodos`): every line of the form
    `[ ] text` is a pending item and every line `[x] text` a done item,
    each tagged with its line index. The view is recomputed from the
    content, never stored. */
module Todos {
  import opened Text
  import opened Lines

  datatype TodoItem = TodoItem(text: string, checked: bool, lineIndex: nat)

  /** The two lists `parseTodos` returns, each in line order. */
  datatype TodoLists = TodoLists(pending: seq<TodoItem>, done: seq<TodoItem>)

  const PendingPrefix: string := "[ ] "
  const DonePrefix: string := "[x] "

  /** Every character is matched by the regular expression atom `.`. */
  predicate NoTerminator(s: string) {
    forall i :: 0 <= i < |s| ==> !IsLineTerminator(s[i])
  }

  /** `^<prefix>(.+)$`: the prefix, then at least one character, none of
      them a line terminator. */
  predicate MatchesTodo(line: string, prefix: string)
    requires |prefix| == 4
  {
    |line| > 4 && line[..4] == prefix && NoTerminator(line[4..])
  }

  /** `/^\[ \] (.+)$/` */
  predicate IsPendingLine(line: string) {
    MatchesTodo(line, PendingPrefix)
  }

  /** `/^\[x\] (.+)$/` */
  predicate IsDoneLine(line: string) {
    MatchesTodo(line, DonePrefix)
  }

  /** The prefix that marks an item with the given state. */
  function Prefix(checked: bool): string {
    if checked then DonePrefix else PendingPrefix
  }

  /** The line form of an item with the given state. */
  predicate IsTodoLine(line: string, checked: bool) {
    if checked then IsDoneLine(line) else IsPendingLine(line)
  }

  /** The list of the given state. */
  function Items(t: TodoLists, checked: bool): seq<TodoItem> {
    if checked then t.done else t.pending
  }

  /** The item describes line `lineIndex` of `lines` correctly: that line
      has the item's state and its text is the rest of the line. */
  predicate IsItemOf(lines: seq<string>, item: TodoItem) {
    item.lineIndex < |lines|
    && IsTodoLine(lines[item.lineIndex], item.checked)
    && item.text == lines[item.lineIndex][4..]
  }

  /** `items` is exactly the list of lines of state `checked` among the
      first `n` lines: each entry is correct, entries are in strictly
      increasing line order, and every such line has an entry. */
  predicate IsView(lines: seq<string>, n: nat, items: seq<TodoItem>, checked: bool)
    requires n <= |lines|
  {
    (forall k :: 0 <= k < |items| ==>
       items[k].checked == checked && items[k].lineIndex < n && IsItemOf(lines, items[k]))
    && (forall j, k :: 0 <= j < k < |items| ==> items[j].lineIndex < items[k].lineIndex)
    && (forall i :: 0 <= i < n && IsTodoLine(lines[i], checked) ==>
          exists k :: 0 <= k < |items| && items[k].lineIndex == i)
  }

  /** The lists after the `forEach` of `parseTodos` has visited the first
      `n` lines. A line that is pending is never also tested as done,
      matching the `else if`. */
  function Collect(lines: seq<string>, n: nat): TodoLists
    requires n <= |lines|
  {
    if n == 0 then TodoLists([], [])
    else
      var prev := Collect(lines, n - 1);
      var line := lines[n - 1];
      if IsPendingLine(line) then
        prev.(pending := prev.pending + [TodoItem(line[4..], false, n - 1)])
      else if IsDoneLine(line) then
        prev.(done := prev.done + [TodoItem(line[4..], true, n - 1)])
      else prev
  }

  /** The todo view of a whole note. */
  function Parse(content: string): TodoLists {
    var lines := Split(content);
    Collect(lines, |lines|)
  }

  /** No line is both pending and done. */
  lemma PendingNotDone(line: string)
    ensures !(IsPendingLine(line) && IsDoneLine(line))
  {
    if IsPendingLine(line) {
      assert line[1] == line[..4][1] == ' ';
    }
  }

  /** One step of `Collect`: the list of a state grows by the visited line
      exactly when that line has the state's form. */
  lemma CollectStep(lines: seq<string>, n: nat, checked: bool)
    requires 0 < n <= |lines|
    ensures Items(Collect(lines, n), checked)
            == Items(Collect(lines, n - 1), checked)
               + (if IsTodoLine(lines[n - 1], checked)
                  then [TodoItem(lines[n - 1][4..], checked, n - 1)] else [])
  {
    PendingNotDone(lines[n - 1]);
  }

  /** Every entry `Collect` makes describes a visited line correctly. */
  lemma {:induction false} CollectSound(lines: seq<string>, n: nat, checked: bool)
    requires n <= |lines|
    ensures forall k :: 0 <= k < |Items(Collect(lines, n), checked)| ==>
              var item := Items(Collect(lines, n), checked)[k];
              item.checked == checked && item.lineIndex < n && IsItemOf(lines, item)
  {
    if n > 0 {
      CollectSound(lines, n - 1, checked);
      CollectStep(lines, n, checked);
      var prev := Items(Collect(lines, n - 1), checked);
      var items := Items(Collect(lines, n), checked);
      forall k | 0 <= k < |items|
        ensures items[k].checked == checked && items[k].lineIndex < n && IsItemOf(lines, items[k])
      {
        if k < |prev| {
          assert items[k] == prev[k];
        }
      }
    }
  }

  /** `Collect` lists entries in strictly increasing line order. */
  lemma {:induction false} CollectOrdered(lines: seq<string>, n: nat, checked: bool)
    requires n <= |lines|
    ensures forall j, k :: 0 <= j < k < |Items(Collect(lines, n), checked)| ==>
              Items(Collect(lines, n), checked)[j].lineIndex < Items(Collect(lines, n), checked)[k].lineIndex
  {
    if n > 0 {
      CollectOrdered(lines, n - 1, checked);
      CollectSound(lines, n - 1, checked);
      CollectStep(lines, n, checked);
    }
  }

  /** `Collect` has an entry for every visited line of the given state. */
  lemma {:induction false} CollectComplete(lines: seq<string>, n: nat, checked: bool)
    requires n <= |lines|
    ensures forall i :: 0 <= i < n && IsTodoLine(lines[i], checked) ==>
              exists k :: 0 <= k < |Items(Collect(lines, n), checked)|
                && Items(Collect(lines, n), checked)[k].lineIndex == i
  {
    if n > 0 {
      CollectComplete(lines, n - 1, checked);
      CollectStep(lines, n, checked);
      var prev := Items(Collect(lines, n - 1), checked);
      var items := Items(Collect(lines, n), checked);
      assert prev <= items;
      if IsTodoLine(lines[n - 1], checked) {
        assert items[|prev|].lineIndex == n - 1;
      }
      forall i | 0 <= i < n - 1 && IsTodoLine(lines[i], checked)
        ensures exists k :: 0 <= k < |items| && items[k].lineIndex == i
      {
        var k :| 0 <= k < |prev| && prev[k].lineIndex == i;
        assert items[k] == prev[k];
      }
    }
  }

  /** Both lists of `Collect` are views of the lines visited so far. */
  lemma CollectIsView(lines: seq<string>, n: nat, checked: bool)
    requires n <= |lines|
    ensures IsView(lines, n, Items(Collect(lines, n), checked), checked)
  {
    CollectSound(lines, n, checked);
    CollectOrdered(lines, n, checked);
    CollectComplete(lines, n, checked);
  }

  /** The view of a whole note: both lists are complete, correct and in
      line order. */
  lemma ParseIsView(content: string, checked: bool)
    ensures IsView(Split(content), |Split(content)|, Items(Parse(content), checked), checked)
  {
    CollectIsView(Split(content), |Split(content)|, checked);
  }

  /** A line lands in the list of a state exactly when it has that state's
      form; in particular a bare `[ ] ` line, or one whose text holds a
      carriage return, lands in no list, and no line lands in both. */
  lemma ParseMembership(content: string, i: nat, checked: bool)
    requires i < |Split(content)|
    ensures (exists k :: 0 <= k < |Items(Parse(content), checked)|
               && Items(Parse(content), checked)[k].lineIndex == i)
            <==> IsTodoLine(Split(content)[i], checked)
    ensures !IsTodoLine(Split(content)[i], false) && !IsTodoLine(Split(content)[i], true) ==>
              forall k :: 0 <= k < |Items(Parse(content), checked)| ==>
                Items(Parse(content), checked)[k].lineIndex != i
  {
    ParseIsView(content, checked);
  }

  /** A line of a state's form is found by the parser, as the item made
      of its text, its state and its index. */
  lemma ParseFindsLine(content: string, i: nat, checked: bool)
    requires i < |Split(content)| && IsTodoLine(Split(content)[i], checked)
    ensures TodoItem(Split(content)[i][4..], checked, i) in Items(Parse(content), checked)
  {
    ParseIsView(content, checked);
    var items := Items(Parse(content), checked);
    var k :| 0 <= k < |items| && items[k].lineIndex == i;
    assert items[k] == TodoItem(Split(content)[i][4..], checked, i);
  }

  /** An item of the view is its line's prefix followed by its text, and
      the text is non-empty and free of line terminators. */
  lemma ParsedItemLine(content: string, item: TodoItem)
    requires item in Items(Parse(content), item.checked)
    ensures item.lineIndex < |Split(content)|
    ensures Split(content)[item.lineIndex] == Prefix(item.checked) + item.text
    ensures |item.text| > 0 && NoTerminator(item.text) && NoNewline(item.text)
  {
    ParseIsView(content, item.checked);
    var line := Split(content)[item.lineIndex];
    assert line == line[..4] + line[4..];
  }

  /** `parseTodos`: one pass over the lines, pushing each pending line onto
      `pending` and each done line onto `done`. */
  method ParseTodos(content: string) returns (t: TodoLists)
    ensures t == Parse(content)
    ensures IsView(Split(content), |Split(content)|, t.pending, false)
    ensures IsView(Split(content), |Split(content)|, t.done, true)
  {
    var lines := Split(content);
    var pending: seq<TodoItem> := [];
    var done: seq<TodoItem> := [];
    var index := 0;
    while index < |lines|
      invariant index <= |lines|
      invariant TodoLists(pending, done) == Collect(lines, index)
    {
      var line := lines[index];
      if IsPendingLine(line) {
        pending := pending + [TodoItem(line[4..], false, index)];
      } else if IsDoneLine(line) {
        done := done + [TodoItem(line[4..], true, index)];
      }
      index := index + 1;
    }
    t := TodoLists(pending, done);
    ParseIsView(content, false);
    ParseIsView(content, true);
  }

  /** The worked example: a heading, one pending and one done item. */
  const ExampleNote: string := "Notes\n[ ] buy milk\n[x] pay bills"
  const ExampleLines: seq<string> := ["Notes", "[ ] buy milk", "[x] pay bills"]

  lemma ExampleJoin()
    ensures Join(ExampleLines) == ExampleNote
  {
    assert Join(ExampleLines[2..]) == "[x] pay bills";
    assert Join(ExampleLines[1..]) == "[ ] buy milk" + "\n" + "[x] pay bills";
  }

  /** The worked example splits into its three lines. */
  lemma ExampleSplit()
    ensures Split(ExampleNote) == ExampleLines
  {
    ExampleJoin();
    assert AllNoNewline(ExampleLines);
    SplitJoin(ExampleLines);
  }

  /** How each line of the worked example is classified. */
  lemma ExampleLineForms()
    ensures !IsPendingLine(ExampleLines[0]) && !IsDoneLine(ExampleLines[0])
    ensures IsPendingLine(ExampleLines[1]) && ExampleLines[1][4..] == "buy milk"
    ensures !IsPendingLine(ExampleLines[2]) && IsDoneLine(ExampleLines[2])
    ensures ExampleLines[2][4..] == "pay bills"
  {
    assert ExampleLines[0][0] == 'N' && ExampleLines[2][1] == 'x';
  }

  /** Parsing the worked example: the pending item is line 1 and the done
      item line 2. */
  lemma ParseExample()
    ensures Parse(ExampleNote)
            == TodoLists([TodoItem("buy milk", false, 1)], [TodoItem("pay bills", true, 2)])
  {
    ExampleSplit();
    ExampleLineForms();
    assert Collect(ExampleLines, 1) == TodoLists([], []);
    assert Collect(ExampleLines, 2) == TodoLists([TodoItem("buy milk", false, 1)], []);
  }
}
