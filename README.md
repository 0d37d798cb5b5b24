# Notion-style editor and page list: a Dafny model

This project models the two pieces of logic in a browser note-taking UI:

- the rich-text editor's formatting rules (`src/components/Editor.jsx`): the
  list kinds, the initial document, the "is this mark / block type active"
  queries, the bold/italic toggles, the block-type toggle that wraps and
  unwraps lists, the `Element` and `Leaf` render switches, and the Ctrl+b /
  Ctrl+i keyboard chords;
- the sidebar's page list (`src/components/Sidebar.jsx`): drag-to-reorder
  (`handleDragEnd`) and adding a page (`addNewPage`).

Files:

- `slate_model.dfy` (module `SlateModel`): the document, simplified to a
  sequence of top-level blocks, each a leaf block of text runs or a list
  container of list items, and a selection that names one leaf block or
  one list item. It also holds the operations of the Slate library that
  the editor calls (`Editor.nodes`, `Editor.marks`, `addMark`,
  `removeMark`, `unwrapNodes` with `split`, `setNodes`, `wrapNodes`).
  Slate's code is not part of this model. These operations are ASSUMED,
  abstract definitions on the simplified document; they are not
  transcriptions of the library. The head comment of the file lists each
  assumption.
- `editor.dfy` (module `Editor`): `LIST_TYPES`, `initialValue`, the document
  invariant, the queries, and each toggle twice. First as a function from
  the state before to the state after (`ToggleBlockResult`,
  `ToggleMarkResult`, `KeyDownResult`); the lemmas are about these. Then
  as a method of the class `EditorState`, which holds the editor's document
  and selection and changes them in the source's order: unwrap, then
  retype, then wrap, or remove/add the mark. Each method's postcondition
  ties its new state to the function.
- `render.dfy` (module `Render`): the `Element` switch and the `Leaf`
  decoration.
- `sidebar.dfy` (module `Sidebar`): page ids as decimal strings,
  `findIndex` and `splice` with JavaScript's conventions, the
  `handleDragEnd` updater as a method over a copied sequence, and the class
  `PageList`, whose invariant says the ids are "1" to "n", each once.

Behaviour of the code that the model keeps as written:

- `toggleBlock` decides whether the format is active before it unwraps
  (line 62 runs before line 65). So toggling a list's own format on one of
  its items turns the item into a paragraph rather than wrapping it again
  (`Editor.ToggleOwnListOff`).
- The mark queries read only the first run of the selection. Toggling a
  mark twice therefore keeps whether the mark is active. It restores the
  document only when all selected runs agree on the mark
  (`Editor.ToggleMarkTwiceRestores`). `Editor.ToggleMarkTwiceMixedRuns`
  shows a document that is not restored.
- The code has no empty-document guard, no refusal of an invalid
  selection, and no special case for unknown formats. An unknown format
  simply becomes the block's type. The document stays non-empty only
  because no operation removes a block.
- `findIndex` returns -1 for a missing id, and `splice` reads a negative
  start as counting from the end. If the dragged id is missing, the last
  page moves (`Sidebar.Reordered`, second postcondition). The result is
  still a permutation.

## Model

| member | source | states |
|---|---|---|
| `Render.ListTypesRenderAsLists` | src/components/Editor.jsx:7 | `LIST_TYPES` (`LIST_TYPES`) holds exactly the two types that `Element` draws as a list, ul or ol. |
| `Editor.InitialValueValid` | src/components/Editor.jsx:10-15 | `InitialValue` (`initialValue`) meets the document invariant. It is one paragraph whose only run is empty and carries no mark. |
| `Editor.IsBlockActiveIff` | src/components/Editor.jsx:28-41 | The contract of `IsBlockActive` (`isBlockActive`). With no selection no format is active. Otherwise a format is active exactly when the selected block has that type, or, for a list item, when its container has it. The editor root and text runs never match. |
| `Editor.MarkActiveIff` | src/components/Editor.jsx:18-26 | The contract of `IsMarkActive` (`isBoldMarkActive` / `isItalicMarkActive`). A mark is active exactly when there is a selection and the first selected run carries the mark. A missing mark set (no selection) reads as inactive. |
| `Editor.ToggleBlockResult` | src/components/Editor.jsx:61-83 | `toggleBlock` keeps the document invariant: non-empty, no empty block or container, every container a list whose children are list items, no top-level text block typed as a list kind, and a selection that resolves. With no selection nothing changes. |
| `Editor.ToggleBlockUnwraps` | src/components/Editor.jsx:65-71 | On every call with a selection, whatever the format, the selected block leaves its list. The items before and after it stay, in order, in containers of the old kind. The rest of the document is unchanged, and the selection follows the block. |
| `Editor.ToggleBlockWhenActive` | src/components/Editor.jsx:73-77 | If the format is active, the selected block becomes a top-level `paragraph` with the same runs, and no container is added. |
| `Editor.ToggleBlockListOn` | src/components/Editor.jsx:79-82 | If the format is not active and is a list kind, the block becomes a `list-item`. It is the only child of a fresh container of type `format`, and the selection moves into it. |
| `Editor.ToggleBlockToFormat` | src/components/Editor.jsx:73-77 | If the format is not active and is not a list kind, the block takes `format` as its type, at top level, unwrapped. |
| `Editor.ToggleOwnListOff` | src/components/Editor.jsx:61-71 | Activity is computed before the unwrap, so toggling a list's own kind on one of its items yields a top-level paragraph. |
| `Editor.ToggleListConversion` | src/components/Editor.jsx:61-83 | Toggling `numbered-list` on an item of a `bulleted-list` puts it in a fresh `numbered-list` in one call, with no paragraph in between. |
| `Editor.ListOnTop` | src/components/Editor.jsx:61-83 | An inactive list format on a selected top-level block replaces just that block, in place, by a fresh container of that format holding it as a `list-item`, and selects the item. |
| `Editor.ListOffSingleton` | src/components/Editor.jsx:61-83 | Toggling a list's own format on the only item of that list replaces the container, in place, by a top-level paragraph with the item's runs, and selects it. |
| `Editor.ToggleBlockTwice` | src/components/Editor.jsx:61-83 | From a selected top-level paragraph, toggling any format twice gives back exactly the starting state. This holds for `heading-one`, both list kinds, and every other format. |
| `Editor.ToggleMarkResult` | src/components/Editor.jsx:43-59 | A mark toggle keeps the document invariant and the selection. With no selection nothing changes. |
| `Editor.ToggleMarkFlips` | src/components/Editor.jsx:43-50 | With a selection, a toggle flips whether the mark is active. Every selected run then carries exactly the new value. Nothing but that mark changes: structure, types, texts and the other mark stay the same. No block outside the selection changes at all. |
| `Editor.ToggleMarkTwice` | src/components/Editor.jsx:43-59 | Toggling a mark twice keeps whether it is active and the selection. It changes nothing but that mark, and no block outside the selection. |
| `Editor.ToggleMarkTwiceRestores` | src/components/Editor.jsx:43-59 | When every selected run agrees on the mark, toggling it twice restores the exact state. |
| `Editor.ToggleMarkTwiceMixedRuns` | src/components/Editor.jsx:18-21 | Because the query reads only the first run, a paragraph with a bold run and a plain run is not restored by two bold toggles. |
| `Editor.KeyDownResult` | src/components/Editor.jsx:205-220 | The `onKeyDown` handler, as a function from the state before to the state after, keeps the document invariant. |
| `Editor.KeyDownChords` | src/components/Editor.jsx:205-219 | The contract of `KeyDownResult`. Without Ctrl nothing happens, and a Ctrl key other than b or i changes nothing. Ctrl+b is exactly the bold toggle, and Ctrl+i exactly the italic one, so `ToggleMarkFlips` applies to both. Each flips its own mark on the selected runs, changes nothing else, and leaves every block outside the selection as it was. |
| `Editor.EditorState.constructor` | src/components/Editor.jsx:10-15 | A new editor holds one paragraph with one empty, unmarked run, and has no selection. |
| `Editor.EditorState.ToggleBlock` | src/components/Editor.jsx:61-83 | The in-place toggle runs unwrap, retype and conditional wrap in order. It keeps the invariant and ends in the state `ToggleBlockResult` gives. |
| `Editor.EditorState.ToggleBoldMark` | src/components/Editor.jsx:43-50 | It removes bold if bold is active, else adds it with value true. It ends in the state `ToggleMarkResult` gives for bold. |
| `Editor.EditorState.ToggleItalicMark` | src/components/Editor.jsx:52-59 | The same as `ToggleBoldMark`, for italic. |
| `Editor.EditorState.OnKeyDown` | src/components/Editor.jsx:205-220 | The handler ends in the state `KeyDownResult` gives. It calls `preventDefault` exactly for Ctrl+b and Ctrl+i. |
| `Render.ElementShape` | src/components/Editor.jsx:86-99 | `Element` is total: `heading-one`→h1, `bulleted-list`→ul, `numbered-list`→ol, `list-item`→li. Every other type, and only those, maps to p. |
| `Render.RenderLeaf` | src/components/Editor.jsx:101-109 | The text is shown unchanged inside a span. A strong wrapper is present exactly when the run is bold, and an em wrapper exactly when it is italic, each at most once. When italic, em is the outermost decoration. |
| `Render.WellFormedShapes` | src/components/Editor.jsx:86-99 | In a well-formed document every container is drawn as ul or ol and every item as li. |
| `Sidebar.NatToString` | src/components/Sidebar.jsx:70 | `String(n)` yields a non-empty string of decimal digits, one character long exactly when n < 10. |
| `Sidebar.NatToStringInjective` | src/components/Sidebar.jsx:70 | Different page numbers give different id strings, so `String(n)` never repeats an id. |
| `Sidebar.IndexOf` | src/components/Sidebar.jsx:57-58 | `findIndex` gives the first index holding the id, or -1 when no page has it. |
| `Sidebar.SpliceOut` | src/components/Sidebar.jsx:61 | `splice(start, 1)` removes and returns the element at the normalised start; the rest keep their order. |
| `Sidebar.SpliceIn` | src/components/Sidebar.jsx:62 | `splice(start, 0, x)` puts `x` at the normalised start, and removing it again gives the array back. |
| `Sidebar.Reordered` | src/components/Sidebar.jsx:56-65 | The updater returns a permutation of the same length. When both ids are present, the dragged page lands at the drop target's original index, and the others keep their relative order. When the dragged id is missing, the last page is the one moved. A page dropped onto itself leaves the list unchanged. The input sequence is a value and is not changed. |
| `Sidebar.ReorderExample` | src/components/Sidebar.jsx:56-65 | For any three pages where C's id differs from A's and B's, dropping C onto A in `[A, B, C]` gives `[C, A, B]`. |
| `Sidebar.MoveKeepsIds` | src/components/Sidebar.jsx:57-63 | Moving one page keeps the multiset of ids. |
| `Sidebar.AppendKeepsIds` | src/components/Sidebar.jsx:69-72 | Appending a page whose id is `String(n + 1)` keeps the ids equal to "1" to "n+1", each once. |
| `Sidebar.IdsUnique` | src/components/Sidebar.jsx:39-43 | Under the id invariant, no two pages share an id. |
| `Sidebar.IdSet` | src/components/Sidebar.jsx:39-43 | Under the id invariant, the ids in use are exactly "1" to "n". |
| `Sidebar.InitialPagesValid` | src/components/Sidebar.jsx:39-43 | `InitialPages` has the ids "1", "2", "3", in that order, so it meets the id invariant. |
| `Sidebar.PageList.constructor` | src/components/Sidebar.jsx:39-43 | The list starts with pages "1", "2", "3", and the invariant holds. |
| `Sidebar.PageList.HandleDragEnd` | src/components/Sidebar.jsx:52-67 | Dropping a page onto itself changes nothing. Otherwise the pages are reordered as `Reordered` says, and the id invariant is kept. |
| `Sidebar.PageList.AddNewPage` | src/components/Sidebar.jsx:69-72 | It appends exactly one page with id `String(n + 1)` and title `Untitled`, leaves the existing pages unchanged, and keeps the id invariant. |

## Left out

- Slate library internals: paths, offsets, point ranges, the exact split rules of `unwrapNodes`, normalisation, `withReact`. They are replaced by the documented assumptions in `slate_model.dfy`.
- `Editor.unhangRange` and selections that span blocks or part of a block. A selection here is one whole leaf block or one whole list item, so unhanging changes nothing, and the "selection ends at offset 0 of the next block" case cannot arise.
- Pending marks: with a collapsed selection, Slate's `addMark` stores the mark for the next typed text. The model treats every selection as covering its block's runs.
- `Editor.removeMark` deletes the mark's key; here an absent mark and `false` are the same value.
- Typing, moving the selection and `onChange`/`setValue`. These follow from user input handled by the editing primitive, and no method here sets the selection.
- Undo/redo, which `withHistory` supplies.
- JSX, class names, the toolbar's highlight classes and `useState`/`useMemo` plumbing.
- dnd-kit: sensors, transforms, `SortableContext`. `HandleDragEnd` takes the two ids dnd-kit reports. A drop with no target (`over` null, which would throw at line 55) is not modelled.
- Sidebar.Reordered: requires a non-empty list, because a drag always starts on a page of the list.
- `src/App.jsx`, `src/components/ui/dropdown.jsx` and `src/components/ui/button.jsx` are layout wrappers with no logic; `cn` is not part of this model.
