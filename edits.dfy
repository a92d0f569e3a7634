/** The three todo mutations of the sidebar (`toggleTodo`, `addTodo`,
    `deleteTodo`). Each splits the note into lines, changes the array of
    lines, joins it again and hands the new content to the optional
    `onContentChange` callback. The callback is modelled by the flag
    `hasCallback`; the content handed to it is the `Some` result, and
    `None` means it was not called. */
module TodoEdits {
  import opened Text
  import opened Lines
  import opened Todos

  datatype Option<T> = None | Some(value: T)

  // ---------------------------------------------------------------------
  // toggleTodo

  /** The line written back by `toggleTodo`: the opposite prefix followed
      by the item's text. */
  function ToggledLine(todo: TodoItem): string {
    Prefix(!todo.checked) + todo.text
  }

  /** `lines[k] = x` on a JavaScript array. Past the end the array grows;
      the holes it leaves join as empty strings. */
  function SetLine(lines: seq<string>, k: nat, x: string): (r: seq<string>)
    ensures |r| == if k < |lines| then |lines| else k + 1
    ensures r[k] == x
    ensures forall j :: 0 <= j < |r| && j != k ==> r[j] == if j < |lines| then lines[j] else ""
  {
    if k < |lines| then lines[k := x] else lines + seq(k - |lines|, _ => "") + [x]
  }

  /** The content `toggleTodo` hands to the callback. */
  function Toggled(content: string, todo: TodoItem): string {
    Join(SetLine(Split(content), todo.lineIndex, ToggledLine(todo)))
  }

  method ToggleTodo(content: string, hasCallback: bool, todo: TodoItem) returns (emitted: Option<string>)
    ensures !hasCallback ==> emitted == None
    ensures hasCallback ==> emitted == Some(Toggled(content, todo))
    ensures hasCallback && todo.lineIndex < |Split(content)| && NoNewline(todo.text) ==>
              Split(emitted.value) == Split(content)[todo.lineIndex := ToggledLine(todo)]
  {
    if !hasCallback {
      return None;
    }
    var lines := Split(content);
    if todo.checked {
      lines := SetLine(lines, todo.lineIndex, PendingPrefix + todo.text);
    } else {
      lines := SetLine(lines, todo.lineIndex, DonePrefix + todo.text);
    }
    emitted := Some(Join(lines));
    if todo.lineIndex < |Split(content)| && NoNewline(todo.text) {
      ToggleLines(content, todo);
    }
  }

  /** Toggling line `k` of the note rewrites that line and no other: the
      line count is kept and every other line is unchanged. */
  lemma ToggleLines(content: string, todo: TodoItem)
    requires todo.lineIndex < |Split(content)| && NoNewline(todo.text)
    ensures Split(Toggled(content, todo)) == Split(content)[todo.lineIndex := ToggledLine(todo)]
    ensures |Split(Toggled(content, todo))| == |Split(content)|
    ensures Split(Toggled(content, todo))[todo.lineIndex] == ToggledLine(todo)
    ensures forall j :: 0 <= j < |Split(content)| && j != todo.lineIndex ==>
              Split(Toggled(content, todo))[j] == Split(content)[j]
  {
    var lines := Split(content)[todo.lineIndex := ToggledLine(todo)];
    assert NoNewline(ToggledLine(todo)) by {
      assert ToggledLine(todo) == Prefix(!todo.checked) + todo.text;
      assert NoNewline(Prefix(!todo.checked));
    }
    assert AllNoNewline(lines) by {
      forall j | 0 <= j < |lines| ensures NoNewline(lines[j]) {
        if j != todo.lineIndex {
          assert lines[j] == Split(content)[j];
        }
      }
    }
    SplitJoin(lines);
  }

  /** Toggling an item of the view, then toggling the item it became,
      gives back the original content exactly. */
  lemma ToggleTwice(content: string, todo: TodoItem)
    requires todo in Items(Parse(content), todo.checked)
    ensures Toggled(Toggled(content, todo), todo.(checked := !todo.checked)) == content
  {
    ParsedItemLine(content, todo);
    var i := todo.lineIndex;
    var back := todo.(checked := !todo.checked);
    ToggleLines(content, todo);
    var mid := Toggled(content, todo);
    var lines := Split(content);
    assert Split(mid)[i := ToggledLine(back)] == lines[i := ToggledLine(todo)][i := ToggledLine(back)];
    assert lines[i := ToggledLine(todo)][i := ToggledLine(back)] == lines;
    JoinSplit(content);
  }

  /** After toggling an item of the view, parsing the new content finds an
      item at the same line with the same text and the opposite state, and
      no item of the old state at that line. */
  lemma ToggleReparse(content: string, todo: TodoItem)
    requires todo in Items(Parse(content), todo.checked)
    ensures todo.(checked := !todo.checked) in Items(Parse(Toggled(content, todo)), !todo.checked)
    ensures forall k :: 0 <= k < |Items(Parse(Toggled(content, todo)), todo.checked)| ==>
              Items(Parse(Toggled(content, todo)), todo.checked)[k].lineIndex != todo.lineIndex
  {
    ParsedItemLine(content, todo);
    ToggleLines(content, todo);
    var c := Toggled(content, todo);
    var i := todo.lineIndex;
    var line := Split(c)[i];
    assert line == Prefix(!todo.checked) + todo.text;
    assert line[..4] == Prefix(!todo.checked) && line[4..] == todo.text;
    assert IsTodoLine(line, !todo.checked);
    PendingNotDone(line);
    ParseFindsLine(c, i, !todo.checked);
    ParseMembership(c, i, todo.checked);
  }

  /** The worked example after its pending item is checked. */
  const ExampleChecked: string := "Notes\n[x] buy milk\n[x] pay bills"

  lemma ExampleCheckedJoin()
    ensures Join(["Notes", "[x] buy milk", "[x] pay bills"]) == ExampleChecked
  {
    var lines := ["Notes", "[x] buy milk", "[x] pay bills"];
    assert Join(lines[2..]) == "[x] pay bills";
    assert Join(lines[1..]) == "[x] buy milk" + "\n" + "[x] pay bills";
  }

  /** The lines of the worked example once line 1 is toggled. */
  lemma ExampleToggledLines()
    ensures SetLine(ExampleLines, 1, ToggledLine(TodoItem("buy milk", false, 1)))
            == ["Notes", "[x] buy milk", "[x] pay bills"]
  {
    assert ToggledLine(TodoItem("buy milk", false, 1)) == "[x] buy milk" by {
      assert Prefix(true) == "[x] ";
    }
  }

  /** Checking the worked example's pending item rewrites its line only. */
  lemma ToggleExample()
    ensures Toggled(ExampleNote, TodoItem("buy milk", false, 1)) == ExampleChecked
  {
    ExampleSplit();
    ExampleToggledLines();
    ExampleCheckedJoin();
  }

  // ---------------------------------------------------------------------
  // addTodo

  /** `/^\[ \] /`: a line that anchors the insertion point. Unlike a
      pending item it may be bare or hold a carriage return. */
  predicate StartsPending(line: string) {
    |line| >= 4 && line[..4] == PendingPrefix
  }

  /** `/^\[.\] /`: a bracketed mark of any single UTF-16 code unit other
      than a line terminator, then a space. */
  predicate IsMarked(line: string) {
    |line| >= 4 && line[0] == '[' && !IsLineTerminator(line[1]) && IsSingleCodeUnit(line[1])
    && line[2] == ']' && line[3] == ' '
  }

  /** A line the header skip steps over: not blank and not marked. */
  predicate IsHeaderLine(line: string) {
    Trim(line) != [] && !IsMarked(line)
  }

  predicate HasAnchor(lines: seq<string>) {
    exists i :: 0 <= i < |lines| && StartsPending(lines[i])
  }

  /** The insertion point `addTodo` chooses. With an anchor line it is just
      after the last one; without, it is the number of leading header lines,
      at most three, the count stopping at the first line that is not one. */
  predicate IsInsertIndex(lines: seq<string>, idx: nat) {
    idx <= |lines|
    && if HasAnchor(lines) then
         0 < idx && StartsPending(lines[idx - 1])
         && forall j :: idx <= j < |lines| ==> !StartsPending(lines[j])
       else
         idx <= 3
         && (forall j :: 0 <= j < idx ==> IsHeaderLine(lines[j]))
         && (idx < 3 && idx < |lines| ==> !IsHeaderLine(lines[idx]))
  }

  /** The first loop of `addTodo`: one past the last anchor line, or 0
      when there is none. */
  method LastAnchorEnd(lines: seq<string>) returns (idx: nat)
    ensures idx <= |lines|
    ensures idx == 0 <==> !HasAnchor(lines)
    ensures idx > 0 ==> StartsPending(lines[idx - 1])
    ensures forall j :: idx <= j < |lines| ==> !StartsPending(lines[j])
  {
    idx := 0;
    for i := 0 to |lines|
      invariant idx <= i
      invariant idx > 0 ==> StartsPending(lines[idx - 1])
      invariant forall j :: idx <= j < i ==> !StartsPending(lines[j])
    {
      if StartsPending(lines[i]) {
        idx := i + 1;
      }
    }
  }

  /** The second loop of `addTodo`: the number of leading header lines
      among the first `min(3, |lines|)`. */
  method HeaderEnd(lines: seq<string>) returns (idx: nat)
    ensures idx <= 3 && idx <= |lines|
    ensures forall j :: 0 <= j < idx ==> IsHeaderLine(lines[j])
    ensures idx < 3 && idx < |lines| ==> !IsHeaderLine(lines[idx])
  {
    idx := 0;
    var limit := if |lines| < 3 then |lines| else 3;
    for i := 0 to limit
      invariant idx == i
      invariant forall j :: 0 <= j < i ==> IsHeaderLine(lines[j])
    {
      if IsHeaderLine(lines[i]) {
        idx := i + 1;
      } else {
        break;
      }
    }
    assert idx < limit ==> !IsHeaderLine(lines[idx]);
  }

  /** How `addTodo` computes `insertIndex`: the header skip runs only when
      the first loop found no anchor (the test `lines.length > 0` always
      holds for the lines of a split). */
  method FindInsertIndex(lines: seq<string>) returns (idx: nat)
    ensures IsInsertIndex(lines, idx)
  {
    idx := LastAnchorEnd(lines);
    if idx == 0 && |lines| > 0 {
      idx := HeaderEnd(lines);
    }
  }

  /** The insertion point is determined by the lines. */
  lemma InsertIndexUnique(lines: seq<string>, a: nat, b: nat)
    requires IsInsertIndex(lines, a) && IsInsertIndex(lines, b)
    ensures a == b
  {
  }

  /** `splice(idx, 0, x)`: `x` inserted before position `idx`. */
  function InsertAt(lines: seq<string>, idx: nat, x: string): (r: seq<string>)
    requires idx <= |lines|
    ensures |r| == |lines| + 1 && r[idx] == x
    ensures forall j :: 0 <= j < idx ==> r[j] == lines[j]
    ensures forall j :: idx <= j < |lines| ==> r[j + 1] == lines[j]
  {
    lines[..idx] + [x] + lines[idx..]
  }

  /** The line `addTodo` inserts. */
  function NewTodoLine(text: string): string {
    PendingPrefix + Trim(text)
  }

  /** The content `addTodo` hands to the callback, for an insertion point. */
  function Added(content: string, text: string, idx: nat): string
    requires idx <= |Split(content)|
  {
    Join(InsertAt(Split(content), idx, NewTodoLine(text)))
  }

  /** `addTodo`. Text that is empty after trimming, or a missing callback,
      changes nothing. Otherwise the trimmed text goes in as a new pending
      line at the insertion point, and the input field is cleared and the
      adding mode closed. */
  method AddTodo(content: string, hasCallback: bool, newTodoText: string, isAddingTodo: bool)
    returns (emitted: Option<string>, nextText: string, nextAdding: bool)
    ensures !hasCallback || Trim(newTodoText) == [] ==>
              emitted == None && nextText == newTodoText && nextAdding == isAddingTodo
    ensures hasCallback && Trim(newTodoText) != [] ==>
              nextText == [] && !nextAdding
              && exists idx :: IsInsertIndex(Split(content), idx)
                   && emitted == Some(Added(content, newTodoText, idx))
    ensures hasCallback && Trim(newTodoText) != [] ==>
              forall idx :: IsInsertIndex(Split(content), idx) ==>
                emitted == Some(Added(content, newTodoText, idx))
  {
    if !hasCallback || Trim(newTodoText) == [] {
      return None, newTodoText, isAddingTodo;
    }
    var newTodoLine := PendingPrefix + Trim(newTodoText);
    var lines := Split(content);
    var insertIndex := FindInsertIndex(lines);
    forall idx | IsInsertIndex(Split(content), idx) ensures idx == insertIndex {
      InsertIndexUnique(Split(content), idx, insertIndex);
    }
    lines := lines[..insertIndex] + [newTodoLine] + lines[insertIndex..];
    emitted := Some(Join(lines));
    nextText := [];
    nextAdding := false;
  }

  /** The added line sits at the insertion point: lines before it are
      unchanged, lines from it on move down by one, and there is one line
      more. */
  lemma AddLines(content: string, text: string, idx: nat)
    requires idx <= |Split(content)| && NoNewline(Trim(text))
    ensures Split(Added(content, text, idx)) == InsertAt(Split(content), idx, NewTodoLine(text))
    ensures |Split(Added(content, text, idx))| == |Split(content)| + 1
    ensures Split(Added(content, text, idx))[idx] == NewTodoLine(text)
    ensures forall j :: 0 <= j < idx ==> Split(Added(content, text, idx))[j] == Split(content)[j]
    ensures forall j :: idx <= j < |Split(content)| ==>
              Split(Added(content, text, idx))[j + 1] == Split(content)[j]
  {
    var before := Split(content);
    var lines := InsertAt(before, idx, NewTodoLine(text));
    assert NoNewline(NewTodoLine(text)) by {
      assert NoNewline(PendingPrefix);
    }
    assert AllNoNewline(lines) by {
      forall j | 0 <= j < |lines| ensures NoNewline(lines[j]) {
        if j < idx {
          assert lines[j] == before[j];
        } else if j > idx {
          assert lines[j] == before[j - 1];
        }
      }
    }
    SplitJoin(lines);
  }

  /** Parsing after an insertion finds the new item, pending, at the
      insertion point, whenever its text can be parsed back. */
  lemma AddReparse(content: string, text: string, idx: nat)
    requires idx <= |Split(content)|
    requires Trim(text) != [] && NoTerminator(Trim(text))
    ensures TodoItem(Trim(text), false, idx) in Parse(Added(content, text, idx)).pending
  {
    assert NoNewline(Trim(text));
    AddLines(content, text, idx);
    var c := Added(content, text, idx);
    var line := Split(c)[idx];
    assert line[..4] == PendingPrefix && line[4..] == Trim(text);
    assert IsPendingLine(line);
    ParseFindsLine(c, idx, false);
  }

  /** An empty note gets the new item as its first line, followed by the
      empty line it had. */
  lemma AddToEmpty(text: string, idx: nat)
    requires IsInsertIndex(Split(""), idx)
    ensures idx == 0 && Added("", text, idx) == NewTodoLine(text) + "\n"
  {
    assert Split("") == [""];
    assert !StartsPending("");
    assert !HasAnchor([""]);
    assert !IsHeaderLine("");
    var lines := InsertAt([""], 0, NewTodoLine(text));
    assert lines == [NewTodoLine(text), ""];
    assert Join(lines[1..]) == "";
  }

  /** Which lines of the worked example anchor an insertion. */
  lemma ExampleAnchors()
    ensures !StartsPending(ExampleLines[0]) && StartsPending(ExampleLines[1])
    ensures !StartsPending(ExampleLines[2])
  {
    assert ExampleLines[0][0] == 'N' && ExampleLines[2][1] == 'x';
  }

  /** In the worked example the new item goes right after the one pending
      line, at index 2 (by TodoEdits.InsertIndexUnique, no other index
      meets the rule). */
  lemma AddExample()
    ensures IsInsertIndex(Split(ExampleNote), 2)
  {
    ExampleSplit();
    ExampleAnchors();
    assert HasAnchor(ExampleLines) by {
      assert StartsPending(ExampleLines[1]);
    }
  }

  // ---------------------------------------------------------------------
  // deleteTodo

  /** `splice(k, 1)`: removes line `k`; past the end it removes nothing. */
  function Removed(lines: seq<string>, k: nat): (r: seq<string>)
    ensures k < |lines| ==> |r| == |lines| - 1
    ensures k < |lines| ==> forall j :: 0 <= j < k ==> r[j] == lines[j]
    ensures k < |lines| ==> forall j :: k <= j < |lines| - 1 ==> r[j] == lines[j + 1]
    ensures k >= |lines| ==> r == lines
  {
    if k < |lines| then lines[..k] + lines[k + 1..] else lines
  }

  /** The content `deleteTodo` hands to the callback. */
  function Deleted(content: string, todo: TodoItem): string {
    Join(Removed(Split(content), todo.lineIndex))
  }

  method DeleteTodo(content: string, hasCallback: bool, todo: TodoItem) returns (emitted: Option<string>)
    ensures !hasCallback ==> emitted == None
    ensures hasCallback ==> emitted == Some(Deleted(content, todo))
    ensures hasCallback && todo.lineIndex >= |Split(content)| ==> emitted == Some(content)
  {
    if !hasCallback {
      return None;
    }
    var lines := Split(content);
    if todo.lineIndex < |lines| {
      lines := lines[..todo.lineIndex] + lines[todo.lineIndex + 1..];
    }
    emitted := Some(Join(lines));
    if todo.lineIndex >= |Split(content)| {
      JoinSplit(content);
    }
  }

  /** Deleting line `k` of a note of two or more lines removes exactly that
      line: one line fewer, lines before `k` unchanged, lines after it moved
      up by one. */
  lemma DeleteLines(content: string, todo: TodoItem)
    requires todo.lineIndex < |Split(content)| && |Split(content)| >= 2
    ensures Split(Deleted(content, todo)) == Removed(Split(content), todo.lineIndex)
    ensures |Split(Deleted(content, todo))| == |Split(content)| - 1
    ensures forall j :: 0 <= j < todo.lineIndex ==> Split(Deleted(content, todo))[j] == Split(content)[j]
    ensures forall j :: todo.lineIndex <= j < |Split(content)| - 1 ==>
              Split(Deleted(content, todo))[j] == Split(content)[j + 1]
  {
    var before := Split(content);
    var k := todo.lineIndex;
    var lines := Removed(before, k);
    assert AllNoNewline(lines) by {
      forall j | 0 <= j < |lines| ensures NoNewline(lines[j]) {
        if j < k {
          assert lines[j] == before[j];
        } else {
          assert lines[j] == before[j + 1];
        }
      }
    }
    SplitJoin(lines);
  }

  /** Deleting the only line of a note leaves the empty note (which still
      reads as one empty line); an index past the end changes nothing. */
  lemma DeleteEdgeCases(content: string, todo: TodoItem)
    ensures |Split(content)| == 1 && todo.lineIndex == 0 ==> Deleted(content, todo) == []
    ensures todo.lineIndex >= |Split(content)| ==> Deleted(content, todo) == content
  {
    JoinSplit(content);
  }
}
