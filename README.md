# Caret save/restore and the command registry of NotesApp, in Dafny

NotesApp is a note-taking desktop shell. This project models two pieces of its
front end:

- **The caret utility** (`desktop-app/frontend/src/components/caret.ts`). It
  keeps the caret of a contentEditable element across a re-render. On every
  `input` event it saves the caret as a character offset (`getCaretOffset`)
  in the module variable `savedOffset`. After the render, `setCaret` puts the
  caret back at that offset (`setCaretOffset`). To do that, `findNode` walks
  the text nodes depth-first and keeps a running character count.
- **The command registry** (`desktop-app/frontend/src/lib/commands.ts`): the
  fixed, ordered list of slash commands, each with a unique id.

How the DOM is modelled (`dom.dfy`, module `Dom`). A node is either
`Text(data)` or `Element(children)`. `Leaves` lists the text nodes in the
order the `childNodes` walk meets them, and `TextContent` joins them. A range
boundary (`Caret.Boundary`) is either the document start, which is where
`document.createRange()` puts a new range, or `InText(Point(leaf, offset))`.
That second form means text leaf number `leaf` in depth-first order, after
`offset` of its characters.

The caret (`caret.dfy`, module `Caret`):

- `Range` and `Selection` are small classes standing for the DOM objects that
  `setCaretOffset` changes.
- `FindNode` is the recursive walk. It has the mutable counters `charCount`
  and the leaf index, and it returns early.
- `SetCaretOffset` creates the range, runs the walk, collapses the range and
  replaces the selection's ranges with it.
- `GetCaretOffset` is a function of the element and the selection.
- `CaretCache` holds `savedOffset`. Its `OnInput` and `SetCaret` are the
  `input` listener and `setCaret`.
- The walk is specified by the function `Locate` over the list of text
  leaves. Lemmas tie `Locate` to an independent description: the first leaf
  whose end reaches the offset, with the earlier leaves falling short. They
  also prove the save/restore round trip.

`setCaretOffset` does **not** clamp an offset beyond the end of the text.
No text node satisfies the test, `setStart` is never called, and the
selection collapses at the document start, where the new range was created.
The model follows the code: `Locate` returns `None` there, and measuring
such a caret gives 0. The same happens for an element with no text node at
all, even for offset 0.

## Model

| member | source | states |
|---|---|---|
| `Caret.GetCaretOffset` | desktop-app/frontend/src/components/caret.ts:5-16 | With no selection, or no range in it, the result is 0. Otherwise it is the number of characters before the first range's start: the whole text leaves before its leaf plus its offset in that leaf. The result is at most the text length, and the text up to it is exactly the text of the range from the element's start to the caret (its `toString()`). |
| `Caret.PrecedingTextIsPrefix` | desktop-app/frontend/src/components/caret.ts:10-13 | The text of the range from the element's start to a boundary is a prefix of the element's `textContent`. Its length is the character count before the boundary. |
| `Caret.FindNode` | desktop-app/frontend/src/components/caret.ts:21-39 | The walk finds a point exactly when `Locate` does on the node's leaves, for the offset still to go (`offset - charCount`). The point it hands to `setStart` is the located one, shifted by the number of leaves already passed. If nothing is found, `charCount` has grown by the node's whole text length and stays at most `offset`, and the leaf count has grown by the node's number of leaves. |
| `Caret.ChildStep` | desktop-app/frontend/src/components/caret.ts:32-36 | One turn of the loop over `childNodes`. The walk over the first i+1 children is the walk over the first i, then over child i with the first i children's text counted. A point found here is the point for the whole element: no later child is looked at. |
| `Caret.LocateAppend` | desktop-app/frontend/src/components/caret.ts:26-36 | Walking a run of leaves followed by more leaves: a point found in the first run is final. Otherwise the first run's text is at most the offset, and the walk goes on in the second run with that text counted and the leaf index shifted. |
| `Caret.LocateFound` | desktop-app/frontend/src/components/caret.ts:24-30 | A found point is valid: an existing leaf, with local offset `offset - charCount` in [0, leaf length]. The earlier leaves' lengths plus the local offset add up to the offset. Every earlier leaf ends before the offset. |
| `Caret.LocateNone` | desktop-app/frontend/src/components/caret.ts:23-41 | The walk fails if and only if there is no text leaf or the offset exceeds the total text length. There is no clamping to the last leaf. |
| `Caret.LocateFirst` | desktop-app/frontend/src/components/caret.ts:24-36 | The converse of `LocateFound`: if leaf j is the first leaf whose end reaches the offset, the walk stops at leaf j, with local offset equal to the offset minus the text before leaf j. |
| `Caret.BoundaryLandsEarly` | desktop-app/frontend/src/components/caret.ts:26-28 | An offset equal to the end of leaf j lands in leaf j or an earlier leaf, never at the start of leaf j+1, because the test is `>=`. |
| `Caret.BoundaryExample` | desktop-app/frontend/src/components/caret.ts:26-28 | With the leaves "ab" and "cd", offset 2 lands at the end of "ab" (leaf 0, offset 2). |
| `Caret.RestoreThenMeasure` | desktop-app/frontend/src/components/caret.ts:18-47 | Round trip. The boundary that `setCaretOffset` chooses is a valid position. Measured again, it gives back the offset when 0 <= offset <= text length and there is a text node. Otherwise it gives 0. |
| `Caret.RestoreAcrossRender` | desktop-app/frontend/src/components/caret.ts:49-61 | A caret measured in one tree and restored in another tree with the same text ends up after the same characters, and, because the new tree has a text node, the restored caret is inside one of its text leaves rather than at the document start. |
| `Caret.SetCaretOffset` | desktop-app/frontend/src/components/caret.ts:18-47 | When the window has a selection, afterwards it holds exactly one range, collapsed at the walk's point (or at the document start when the walk fails). `GetCaretOffset` then returns the offset, or 0 when the offset is out of range. |
| `Caret.Range.constructor` | desktop-app/frontend/src/components/caret.ts:19 | A new range is collapsed at the start of the document. |
| `Caret.Range.SetStart` | desktop-app/frontend/src/components/caret.ts:27 | The start moves to the given point. The end moves with it when it would otherwise precede the start. |
| `Caret.Range.Collapse` | desktop-app/frontend/src/components/caret.ts:42 | `collapse(true)` puts the end on the start, and the start does not move. |
| `Caret.Selection.RemoveAllRanges` | desktop-app/frontend/src/components/caret.ts:44 | Afterwards the selection holds no range. |
| `Caret.Selection.AddRange` | desktop-app/frontend/src/components/caret.ts:45 | An empty selection takes the range's boundary points. A selection that already holds a range is unchanged. |
| `Caret.CaretCache.constructor` | desktop-app/frontend/src/components/caret.ts:3 | `savedOffset` starts at 0. |
| `Caret.CaretCache.OnInput` | desktop-app/frontend/src/components/caret.ts:51-55 | An input on a contentEditable target overwrites `savedOffset` with `getCaretOffset(target)`. Any other input leaves it unchanged. |
| `Caret.CaretCache.SetCaret` | desktop-app/frontend/src/components/caret.ts:59-62 | Restores exactly the saved offset. The selection becomes one collapsed range at its target, and measuring gives `savedOffset` back whenever it is within the element's text. `savedOffset` itself is not changed. |
| `Caret.InputThenRerender` | desktop-app/frontend/src/components/caret.ts:49-61 | The save-before-render / restore-after-render cycle. After an input, a re-render that keeps the text, and `setCaret`, the selection holds one range, starting in a text leaf of the new tree, and the text before its start is the same as before the render. |
| `Commands.CommandOrder` | desktop-app/frontend/src/lib/commands.ts:8-51 | Both the list as written and the corrected list have seven entries, with ids in the order heading-1, heading-2, heading-3, toggle, bullet, reference, line. |
| `Commands.SourceOrderIdsAreUnique` | desktop-app/frontend/src/lib/commands.ts:2-51 | For any list of commands: if its ids are the source's seven ids in that order, then no two entries share an id. |
| `Commands.IdsAreUnique` | desktop-app/frontend/src/lib/commands.ts:2-51 | In both lists, any two different entries have different ids. |
| `Commands.HeadingMarkdown` | desktop-app/frontend/src/lib/commands.ts:9-26 | In both lists, for k from 1 to 3, entry k-1 has id `heading-k` and markdown of exactly k `#` characters. |
| `Commands.SecondIsHeadingTwo` | desktop-app/frontend/src/lib/commands.ts:15-20 | For any list whose first three entries are the headings, the entry at index 1 is `heading-2`, with markdown `##`. |
| `Commands.FieldsNonEmpty` | desktop-app/frontend/src/lib/commands.ts:9-50 | In both lists, every entry has a non-empty label, markdown and description. |
| `Commands.IconsAreSingleCharacters` | desktop-app/frontend/src/lib/commands.ts:27-50 | In the corrected list, the toggle, bullet, reference and line icons are each one character. |
| `Commands.AsWrittenIsMisread` | desktop-app/frontend/src/lib/commands.ts:27-50 | The list as written matches the corrected list in every id, label and description, and in the three heading markers. Each of the other four icons is the intended character's UTF-8 bytes read back as Windows-1252, which gives three or four characters. |

## Findings

| source | as written | input that shows it | evidently intended | confidence | as-written member | corrected member |
|---|---|---|---|---|---|---|
| desktop-app/frontend/src/lib/commands.ts:30-48 | The toggle, bullet, reference and line icons are U+00E2 U+20AC U+00BA, U+00E2 U+20AC U+00A2, U+00F0 U+0178 U+201D U+2014, and U+00E2 U+20AC U+201D. | The command menu renders these entries' `markdown` as three or four Windows-1252 characters each (e.g. `â€º` for toggle). | The single characters U+203A (›), U+2022 (•), U+1F517 (link symbol) and U+2014 (—). Each garbled string is exactly the UTF-8 encoding of one of these, decoded as Windows-1252. | medium (the garbling may have come from how the file was saved); not executed | `Commands.AsWrittenIsMisread` (over `COMMANDS_AS_WRITTEN`) | `Commands.IconsAreSingleCharacters` (over `COMMANDS`) |

## Left out

- The `input` listener registration on `document` and the `setTimeout(…, 0)` in `setCaret` are event-loop plumbing. `CaretCache.OnInput` is what the listener does for one event. `CaretCache.SetCaret` restores at once, with no delay.
- The window's selection is a parameter (`Selection?`; `null` stands for `window.getSelection()` returning null). The live DOM is a `Node` value passed in, and `isContentEditable` is a boolean passed with the event.
- DOM boundary points inside element containers, whose offsets count child nodes, are not modelled. Of the boundary points outside the element, only the document start is. `GetCaretOffset` and `CaretCache.OnInput` therefore require that the selection's start be the document start or a real point in one of the element's text leaves.
- The selection stores the boundary points of the range it was given, not the live `Range` object. A later change to the range would not reach the selection. `setCaretOffset` makes no such change.
- `FindNode` returns the point that `findNode` passes to `range.setStart`, and `SetCaretOffset` applies it right after the walk. Nothing happens in between, so the effect is the same.
- `range.setStart` would throw for an offset beyond the node's length. `Range.SetStart` does not check this, and `RestoreThenMeasure` proves that the point passed is always valid.
- `textContent?.length || 0`: a DOM text node's `textContent` is never null, so the model uses the length of its data.
- Offsets are `nat`. The only caller passes `savedOffset`, a `getCaretOffset` result, so negative and fractional offsets cannot occur.
- Lengths count Unicode scalar values, but JavaScript counts UTF-16 code units. Text with characters outside the Basic Multilingual Plane gives different offsets; the algorithm is the same. For the same reason, the link icon counted as one character by `IconsAreSingleCharacters` has length 2 in JavaScript.
- `Sidebar.tsx`, `App.tsx`, `CommandDropdown.tsx`, `WelcomeScreen.tsx`, `Editor.tsx`, `vite.config.ts` and `backend/placeholder_fastapi_app.py` are rendering, shell composition, build configuration and an HTTP health endpoint, and are not modelled. The editor is a plain `<textarea>` with a `.note` suffix test.
- The command `icon` is the `markdown` field, as in the source. Its `label` field is called `title` here because `label` is a Dafny keyword.
