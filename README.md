# Todo model of the notepad sidebar

The notepad's left sidebar shows a checklist taken from the active note. The
note is plain text. A line `[ ] text` is a pending item and a line
`[x] text` is a done item. From the sidebar the user can check or uncheck
an item, add one, or delete one. Each of these edits splits the note on
`"\n"`, changes the array of lines, joins it back and hands the whole new
note to the host's `onContentChange` callback. The sidebar also shows a
word count and a character count of the note.

This project models that todo model and the two counters, and proves
properties about them:

- `text.dfy` (module `Text`): the ECMAScript runtime pieces the code relies
  on. These are the whitespace set of `trim()` and `\s`, the line
  terminators that `.` does not match, `trim()` itself, and
  `String.prototype.length` counted in UTF-16 code units.
- `lines.dfy` (module `Lines`): `split("\n")` and `join("\n")`. Both round
  trips are proved.
- `todos.dfy` (module `Todos`): `parseTodos`. It is a loop method proved
  equal to a specification function, with lemmas that the two lists are
  complete, correct and in line order.
- `edits.dfy` (module `TodoEdits`): `toggleTodo`, `addTodo` (with its two
  loops that pick the insertion point) and `deleteTodo`. Each has lemmas
  about the lines of the note it produces and about re-parsing that note.
- `counters.dfy` (module `Counters`): the word count expression, proved
  equal to an independent count of word starts; and the character count.

How the host is modelled:
- The optional callback is the flag `hasCallback`.
- A call `onContentChange(c)` is the result `Some(c)`. `None` means the
  callback was not called.
- The two state setters that `addTodo` calls (`setNewTodoText("")` and
  `setIsAddingTodo(false)`) are modelled as two extra results: the next
  input text and the next adding flag.
- The local `lines` array is a `seq<string>` that the method reassigns.
  The array is local to one call, so nothing else can see it.

Where the code and its design description differ, the model follows the
code:
- A todo line needs at least one character of text after the prefix, and
  that text may hold no line terminator. So a bare `[ ] ` line, or a line
  `[ ] a\r`, is not an item.
- Such lines still anchor the insertion point, because that test looks only
  at the prefix `[ ] `.
- The header skip stops at any line marked `[c] `, where `c` is any single
  UTF-16 code unit other than a line terminator (for example `[-] `). It
  does not stop only at the two todo prefixes.
- `toggleTodo` with an index past the end of the note is modelled as
  JavaScript runs it for an index below 2^32 - 1 whose joined result fits
  the engine's string limit: the array grows, and the holes join as empty
  lines. The parser never produces such an index.

## Model

| member | source | states |
|---|---|---|
| Text.TrimStart | components/notepad/left-sidebar.tsx:103 | the result is a suffix of the input; what was dropped is all whitespace; the result does not start with whitespace |
| Text.TrimEnd | components/notepad/left-sidebar.tsx:103 | the result is a prefix of the input; what was dropped is all whitespace; the result does not end with whitespace |
| Text.Trim | components/notepad/left-sidebar.tsx:103 | `trim()` is dropping the leading whitespace and then the trailing whitespace, so the result is the longest middle slice that neither starts nor ends with whitespace |
| Text.TrimEmptyIff | components/notepad/left-sidebar.tsx:103 | `trim()` gives the empty string exactly when the text is all whitespace: the condition under which `addTodo` gives up, and the blank-line test of the header skip (line 120) |
| Text.TrimHasNoOuterWhitespace | components/notepad/left-sidebar.tsx:61 | a trimmed string neither starts nor ends with whitespace |
| Text.Utf16Length | components/notepad/left-sidebar.tsx:62 | `length` is at least the number of characters and at most twice it; it equals it when every character fits in one UTF-16 code unit |
| Lines.Split | components/notepad/left-sidebar.tsx:66 | `split("\n")` always gives at least one line, and no line contains a newline |
| Lines.Join | components/notepad/left-sidebar.tsx:98 | `join("\n")` puts one newline between consecutive lines, gives the only line of a one-line array as it is, and gives `""` for an empty array |
| Lines.SplitLength | components/notepad/left-sidebar.tsx:66 | the number of lines is the number of newlines plus one |
| Lines.JoinSplit | components/notepad/left-sidebar.tsx:90-98 | joining the split lines gives back the content exactly |
| Lines.SplitJoin | components/notepad/left-sidebar.tsx:90-98 | splitting the join of a non-empty array of newline-free lines gives back that array |
| Lines.SplitPrefix | components/notepad/left-sidebar.tsx:66 | a newline-free prefix joins onto the first line of what follows it |
| Todos.MatchesTodo | components/notepad/left-sidebar.tsx:71-72 | `^<prefix>(.+)$`: the line is the 4-character prefix followed by at least one character, none of them a line terminator (so a bare prefix and a line ending in `\r` do not match) |
| Todos.IsPendingLine | components/notepad/left-sidebar.tsx:71 | `/^\[ \] (.+)$/`: the pending form, with the prefix `[ ] ` |
| Todos.IsDoneLine | components/notepad/left-sidebar.tsx:72 | `/^\[x\] (.+)$/`: the done form, with the prefix `[x] ` |
| Todos.Collect | components/notepad/left-sidebar.tsx:70-79 | the two lists after the `forEach` has visited the first `n` lines: a pending line appends an item with the text after the prefix and the line index to the pending list; otherwise a done line appends one to the done list (the `else if`); any other line appends nothing |
| Todos.Parse | components/notepad/left-sidebar.tsx:65-82 | the view of a note is the two lists after visiting every line of `split("\n")` |
| Todos.ParseTodos | components/notepad/left-sidebar.tsx:65-82 | the `forEach` loop builds exactly the two lists of the function `Parse`, and each is a complete, correct, line-ordered view of its state |
| Todos.PendingNotDone | components/notepad/left-sidebar.tsx:71-77 | no line is both a pending and a done line |
| Todos.CollectStep | components/notepad/left-sidebar.tsx:74-78 | visiting one line adds an item to a state's list exactly when the line has that state's form, with the rest of the line as text and the line's index |
| Todos.CollectSound | components/notepad/left-sidebar.tsx:70-79 | every listed item has the right state and an index among the visited lines, and that line has the item's form and text |
| Todos.CollectOrdered | components/notepad/left-sidebar.tsx:70-79 | each list is in strictly increasing line order |
| Todos.CollectComplete | components/notepad/left-sidebar.tsx:70-79 | every visited line of a state's form has an item in that state's list |
| Todos.CollectIsView | components/notepad/left-sidebar.tsx:70-79 | both lists are complete, correct and ordered views of the visited lines |
| Todos.ParseIsView | components/notepad/left-sidebar.tsx:65-82 | the same for the whole note |
| Todos.ParseMembership | components/notepad/left-sidebar.tsx:71-78 | line `i` has an item in a state's list if and only if it has that state's form; a line of neither form, such as a bare `[ ] ` line, is in no list |
| Todos.ParseFindsLine | components/notepad/left-sidebar.tsx:74-77 | a line of a state's form appears as the item built from its text, its state and its index |
| Todos.ParsedItemLine | components/notepad/left-sidebar.tsx:71-77 | a listed item's line is its prefix followed by its text, and the text is non-empty and free of line terminators |
| Todos.ParseExample | components/notepad/left-sidebar.tsx:65-82 | `"Notes\n[ ] buy milk\n[x] pay bills"` parses to one pending item at line 1 and one done item at line 2 |
| TodoEdits.ToggledLine | components/notepad/left-sidebar.tsx:91-97 | the line written back is the opposite state's prefix followed by the item's text |
| TodoEdits.SetLine | components/notepad/left-sidebar.tsx:93-96 | assigning line `k` sets it and keeps every other line; past the end, the array grows with empty lines |
| TodoEdits.Toggled | components/notepad/left-sidebar.tsx:90-98 | the content handed on by `toggleTodo`: the note split, line `lineIndex` set to the toggled line, joined again |
| TodoEdits.ToggleTodo | components/notepad/left-sidebar.tsx:87-99 | without a callback nothing is handed on; otherwise the note is handed on with line `lineIndex` rewritten to the opposite prefix and the item's text, and re-splitting it gives the old lines with only that one replaced |
| TodoEdits.ToggleLines | components/notepad/left-sidebar.tsx:90-98 | toggling keeps the line count, sets the toggled line, and leaves every other line byte-identical |
| TodoEdits.ToggleTwice | components/notepad/left-sidebar.tsx:91-97 | toggling a parsed item and then the item it became restores the original note exactly |
| TodoEdits.ToggleReparse | components/notepad/left-sidebar.tsx:91-97 | after a toggle the parser finds the item at the same line with the same text and the opposite state, and no item of the old state at that line |
| TodoEdits.ToggleExample | components/notepad/left-sidebar.tsx:91-98 | checking the example's pending item gives `"Notes\n[x] buy milk\n[x] pay bills"` |
| TodoEdits.StartsPending | components/notepad/left-sidebar.tsx:111 | `/^\[ \] /`: the line starts with `[ ] `; unlike a pending item it may be bare or hold a `\r` |
| TodoEdits.IsMarked | components/notepad/left-sidebar.tsx:120 | `/^\[.\] /`: `[`, one non-terminator character that is a single UTF-16 code unit, `]`, then a space; a character outside the Basic Multilingual Plane between the brackets is two code units and does not match |
| TodoEdits.IsHeaderLine | components/notepad/left-sidebar.tsx:120 | the test of the header skip: the line is not blank after `trim()` and is not marked |
| TodoEdits.HasAnchor | components/notepad/left-sidebar.tsx:110-113 | some line starts with `[ ] ` |
| TodoEdits.IsInsertIndex | components/notepad/left-sidebar.tsx:109-126 | the placement rule: with an anchor, the index just after the last line starting with `[ ] `; without one, the number of leading header lines, at most three, counting stops at the first line that is not a header line |
| TodoEdits.LastAnchorEnd | components/notepad/left-sidebar.tsx:109-114 | the first loop gives one past the last line starting with `[ ] `, and gives 0 exactly when there is none |
| TodoEdits.HeaderEnd | components/notepad/left-sidebar.tsx:117-126 | the second loop counts the leading non-blank, unmarked lines, at most three, and stops at the first other line |
| TodoEdits.FindInsertIndex | components/notepad/left-sidebar.tsx:108-126 | the chosen index meets the placement rule and is never past the end |
| TodoEdits.InsertIndexUnique | components/notepad/left-sidebar.tsx:108-126 | the placement rule determines one index |
| TodoEdits.InsertAt | components/notepad/left-sidebar.tsx:128 | `splice(idx, 0, x)` puts `x` at `idx`, keeps the lines before it and moves the rest down by one |
| TodoEdits.NewTodoLine | components/notepad/left-sidebar.tsx:105 | the inserted line is `[ ] ` followed by the trimmed text |
| TodoEdits.Added | components/notepad/left-sidebar.tsx:128-129 | the content handed on by `addTodo` for an insertion index: the new line spliced in before that index, joined again |
| TodoEdits.AddTodo | components/notepad/left-sidebar.tsx:102-132 | without a callback, or with text that trims to nothing, nothing is handed on and the input state is kept; otherwise the note is handed on with `[ ] ` plus the trimmed text inserted at the placement index (for every index the rule admits, so the handed-on note is fixed by the rule alone), the input is cleared and adding mode is closed |
| TodoEdits.AddLines | components/notepad/left-sidebar.tsx:105-129 | the re-split note has one more line: the new line at the insertion index, the lines before it unchanged, the lines from it on moved down by one |
| TodoEdits.AddReparse | components/notepad/left-sidebar.tsx:105-129 | the parser finds the new pending item, with the trimmed text, at the insertion index |
| TodoEdits.AddToEmpty | components/notepad/left-sidebar.tsx:109-129 | in an empty note the new item goes at index 0, giving `"[ ] text\n"` |
| TodoEdits.AddExample | components/notepad/left-sidebar.tsx:109-114 | in the example the placement rule picks index 2, right after the pending line; by TodoEdits.InsertIndexUnique it picks no other |
| TodoEdits.Removed | components/notepad/left-sidebar.tsx:139 | `splice(k, 1)` removes line `k`, keeping the lines before it and moving later lines up by one; past the end it removes nothing |
| TodoEdits.Deleted | components/notepad/left-sidebar.tsx:138-140 | the content handed on by `deleteTodo`: the note split, line `lineIndex` spliced out, joined again |
| TodoEdits.DeleteTodo | components/notepad/left-sidebar.tsx:135-141 | without a callback nothing is handed on; otherwise the note minus line `lineIndex` is handed on, and an index past the end hands on the note unchanged |
| TodoEdits.DeleteLines | components/notepad/left-sidebar.tsx:138-140 | in a note of two or more lines, the re-split note lacks exactly the deleted line: one line fewer, lines before it unchanged, later lines moved up by one |
| TodoEdits.DeleteEdgeCases | components/notepad/left-sidebar.tsx:138-140 | deleting the only line leaves the empty note; an index past the end leaves the note unchanged |
| Counters.WordCount | components/notepad/left-sidebar.tsx:61 | `content.trim().split(/\s+/).filter(Boolean).length`: the number of non-empty pieces of the trimmed note split on whitespace runs (Counters.WordCountIsRuns gives its meaning) |
| Counters.CharCount | components/notepad/left-sidebar.tsx:62 | `content.length`: the note's length in UTF-16 code units, bounded as Text.Utf16Length states |
| Counters.NonEmpty | components/notepad/left-sidebar.tsx:61 | `filter(Boolean)` on strings: the non-empty pieces, in their order |
| Counters.SplitOnWhitespace | components/notepad/left-sidebar.tsx:61 | `split(/\s+/)` gives at least one piece, and its first piece is empty exactly when the text is empty or starts with whitespace |
| Counters.SplitCountsWordStarts | components/notepad/left-sidebar.tsx:61 | the non-empty pieces of `split(/\s+/)` are as many as the word starts of the text |
| Counters.WordStartsTrim | components/notepad/left-sidebar.tsx:61 | `trim()` removes no word start |
| Counters.WordCountIsRuns | components/notepad/left-sidebar.tsx:61 | the word count is the number of maximal runs of non-whitespace characters |
| Counters.WordCountZeroIff | components/notepad/left-sidebar.tsx:61 | the word count is 0 exactly when the note is empty or all whitespace |
| Counters.WordCountBound | components/notepad/left-sidebar.tsx:61-62 | the word count never exceeds the number of characters, which never exceeds the character count |
| Counters.WordCountExamples | components/notepad/left-sidebar.tsx:61-62 | `""` has 0 words; `"a  b\nc"` has 3 words and 6 characters |

## Left out

- JSX rendering, styling, animation, drop-down and context menus (left-sidebar.tsx:199-492): presentation only.
- The file operations `onSelectFile`, `onDeleteFile`, `onRenameFile` and `onDuplicateFile`, and `startRename`, `finishRename`, `handleFileContextMenu`, `handleDuplicate` (143-163): they only pass arguments to callbacks owned by the host.
- `handleMove` (165-169): it only shows a placeholder alert.
- `handleFileClick`, `handleUnlock` and the unlock dialog (171-197): decryption is a call into the host, and the rest is dialog state.
- React's `useState` (52-59): the values the todo model reads and writes are parameters and results here.
- The host's handling of the new note, and any edit racing with it: the model ends where the new note is handed to the callback.
- Dafny's `char` is a Unicode scalar value, and JavaScript strings are UTF-16 code units. The model covers where this matters: `length`, and the single `.` of `^\[.\] `, which cannot match a character outside the Basic Multilingual Plane. A string holding a lone surrogate cannot be represented.
- TodoEdits.SetLine: models `lines[k] = x` as an array-index store for every `k`. For `k >= 2^32 - 1` JavaScript instead adds a plain property and leaves `length` and the joined note unchanged. A joined note beyond the engine's maximum string length would throw a `RangeError`; the model returns a string. Neither case arises for an index the parser produces.
- TodoEdits.ToggleLines: stated for an index inside the note and a newline-free text. Every parsed item meets this (Todos.ParsedItemLine). Toggling past the end is modelled by TodoEdits.SetLine but has no lemma about the re-split note.
- TodoEdits.AddLines: stated for a trimmed text without a newline. The text comes from a single-line input field. Text with a newline would add more than one line.
- TodoEdits.AddReparse: stated for a trimmed text without line terminators. Other text is inserted but not parsed back as an item.
- TodoEdits.DeleteLines: stated for notes of two or more lines. Deleting the only line gives the empty note. That note still splits into one empty line (TodoEdits.DeleteEdgeCases).
