# Markdown-style autoformat dispatcher

A Dafny model of the autoformat logic of the draft-js rich-text editor in
`src/RichTextEditor.js`. When a character is about to be typed, the editor's
`handleBeforeInput` hook looks at the text of the block at the selection's
start key, trims it, and, if the pending input is exactly one space and the
trimmed text is exactly `#`, `*`, `**` or `***`, runs one handler. The handler
replaces a range of the block with a single space, pushes the result as a
`replace-text` change, toggles one format and reports `"handled"`:

| literal | replaced range | effect |
|---|---|---|
| `#` | offsets 0 to 1 | block type `header-one` |
| `*` | offsets 0 to 1 | inline style `BOLD` |
| `**` | selection start − 2 to selection end | inline style `RED_LINE` |
| `***` | selection start − 3 to selection end | inline style `UNDERLINE` |

Anything else reports `"not-handled"`, and draft-js inserts the character itself.

Files:

- `text.dfy` (module `Text`): `String.prototype.trim` of ECMA-262, as the
  removal of WhiteSpace and LineTerminator code points from both ends, with
  its characterisation (trim returns the input minus whitespace at its ends,
  and nothing else).
- `editor.dfy` (module `Editor`): the editor state the hook reads. This is the
  block map, reduced to block key → text, and the `SelectionState`, with anchor,
  focus and direction. It also holds the assumed text effect of
  `Modifier.replaceText` (see below).
- `autoformat.dfy` (module `Autoformat`): the rules, detection, the four
  handlers as plans, the dispatcher, and the lemmas about them.
- `wrappers.dfy` (module `Wrappers`): `Option`.

Modelling choices:

- A handler's work is returned as a `Plan` value. The plan holds the merged
  selection passed to `Modifier.replaceText`, the replacement text and its
  style (`null`), the change type given to `EditorState.push`, and the
  toggle to apply. The draft-js calls themselves are opaque.
- Offsets are unbounded integers, as JavaScript numbers are here. The `**` and
  `***` handlers do not check `start − 2` / `start − 3`. `WellFormedIn` and the
  lemmas `TargetWellFormedIff` and `CrossBlockIllFormed` state exactly when the
  range handed to `replaceText` lies inside the block. A backward selection
  keeps its direction through `merge`, so every handler then receives an
  inverted range.
- `Editor.ReplaceText` is an ASSUMPTION about the library, not repository
  code. On a well-formed range it splices `text[..start] + replacement +
  text[end..]` into the block. Otherwise its result is `None`, meaning "not
  modelled". The text-level lemmas (`ConsumesTypedSpace`,
  `LeadingSpaceKeepsHash`, `TrailingSpaceKeepsAsterisk`) rest on it.
- When the selection's start key names no block, the source reads `getText()`
  of `undefined` and raises a TypeError. This happens before the pending
  input is checked. The model returns the explicit outcome `NoBlock` instead
  of excluding the case.
- Behaviour the model keeps as the code has it:
  - Detection also runs on non-collapsed selections. It inspects the block at
    the selection's start key (`NonCollapsedSelectionDetected`).
  - All four handlers replace their range with one space.
  - An out-of-range replacement is still reported "handled": no handler
    checks its offsets.

## Model

| member | source | states |
|---|---|---|
| Text.TrimStartSpec | src/RichTextEditor.js:34 | the result is the suffix of the input left after dropping only whitespace, and does not start with whitespace |
| Text.TrimEndSpec | src/RichTextEditor.js:34 | the result is the prefix of the input left after dropping only whitespace, and does not end with whitespace |
| Text.Trim | src/RichTextEditor.js:34 | the trimmed text is no longer than the block text and has no whitespace at either end |
| Text.TrimPadded | src/RichTextEditor.js:34 | whitespace of any length on either side of a trimmed string is removed by trim, and the string is kept |
| Text.TrimSplits | src/RichTextEditor.js:34 | the block text is the whitespace trim removed in front, then the trimmed text, then the whitespace removed behind |
| Text.TrimCharacterization | src/RichTextEditor.js:34 | trim(s) == t if and only if t has no whitespace at its ends and s is t with whitespace added on both sides |
| Text.TrimIdempotent | src/RichTextEditor.js:34 | trimming the trimmed text changes nothing |
| Editor.BlockText | src/RichTextEditor.js:32-33 | the start block is found exactly when its key is in the block map, and it is that block's text |
| Editor.ReplaceText | src/RichTextEditor.js:52-60 | (assumed library effect) defined exactly on well-formed ranges; the block keeps its text before the range, gets the replacement, then the text after the range; other blocks are unchanged |
| Autoformat.Pattern | src/RichTextEditor.js:37-43 | every trigger literal is non-empty and is its own trim, so it can match a trimmed block |
| Autoformat.Detect | src/RichTextEditor.js:34-45 | a rule is detected exactly when the input is `" "` and the trimmed text equals that rule's literal; hence at most one rule |
| Autoformat.PlanFor | src/RichTextEditor.js:51-137 | every handler replaces with one space, no inline style, change type `replace-text`, and keeps the selection's keys and direction |
| Autoformat.BeforeInput | src/RichTextEditor.js:29-49 | raises exactly when the start block is missing; a handled outcome implies the pending input was a space |
| Autoformat.Reply | src/RichTextEditor.js:29-137 | the reply is `"handled"` exactly for a handled outcome and `"not-handled"` exactly otherwise |
| Autoformat.NonSpaceNotHandled | src/RichTextEditor.js:36-48 | any pending input other than exactly one space is not handled, whatever the block text |
| Autoformat.MissingBlockRaises | src/RichTextEditor.js:32-34 | a selection whose start key names no block raises, whatever the pending input |
| Autoformat.DetectIff | src/RichTextEditor.js:34-45 | a rule is detected if and only if the input is a space and the block text is the rule's literal with only whitespace around it |
| Autoformat.HandledIff | src/RichTextEditor.js:36-45 | the keystroke is handled by a rule's plan exactly when the start block detects that rule, and handled at all exactly when some rule is detected |
| Autoformat.PaddedPatternTriggers | src/RichTextEditor.js:34-45 | a literal with whitespace on both sides triggers its own rule |
| Autoformat.PaddedDoubleAsteriskExample | src/RichTextEditor.js:34-41 | block text `"  ** "` selects the double-asterisk rule |
| Autoformat.NearMissesNotDetected | src/RichTextEditor.js:37-48 | `"*a"`, `"****"` and `"# a"` trigger nothing: matching is exact, not by prefix |
| Autoformat.OnlyStartBlockMatters | src/RichTextEditor.js:31-34 | two block maps that agree on the start block give the same outcome |
| Autoformat.NonCollapsedSelectionDetected | src/RichTextEditor.js:31-40 | a non-collapsed selection over block `"*"` is still handled by the bold rule |
| Autoformat.EffectTable | src/RichTextEditor.js:68-134 | `#` toggles block type header-one, `*` BOLD, `**` RED_LINE, `***` UNDERLINE, and distinct rules give distinct effects |
| Autoformat.FixedRange | src/RichTextEditor.js:51-82 | the `#` and `*` handlers target the same range wherever the cursor is, offsets 0 to 1 for a forward selection |
| Autoformat.SelectionRange | src/RichTextEditor.js:95-126 | for every selection, the `**` and `***` handlers set the anchor to the selection start minus the literal's length and the focus to the selection end, keeping the direction; for a forward selection the replaced range runs from the one to the other |
| Autoformat.TargetWellFormedIff | src/RichTextEditor.js:51-126 | the replaced range lies inside the block if and only if the selection is forward and the block is non-empty (`#`, `*`) or the selection starts at least 2 (`**`) or 3 (`***`) characters in |
| Autoformat.CrossBlockIllFormed | src/RichTextEditor.js:96-101 | a selection spanning two blocks never yields a range inside one block |
| Autoformat.HandledTargetWellFormed | src/RichTextEditor.js:29-126 | whenever a forward in-block selection triggers a rule, the `#` and `*` ranges are inside the block, and so are the `**`/`***` ranges once the selection starts far enough in |
| Autoformat.ConsumesTypedSpace | src/RichTextEditor.js:51-137 | for a block holding exactly a literal with the cursor after it, the keystroke is handled and the block becomes a single space: the space is consumed, not added |
| Autoformat.LeadingSpaceKeepsHash | src/RichTextEditor.js:51-70 | for block `" #"` the heading rule fires but replaces the leading space, so the `#` stays |
| Autoformat.TrailingSpaceKeepsAsterisk | src/RichTextEditor.js:95-114 | for block `"** "` with the cursor at its end, the range is counted back from the cursor and one `*` stays |

## Left out

- React component structure, `useState`/`useEffect` and the `setEditorState` calls: the handler's result is returned as a value.
- `localStorage` persistence and `convertToRaw`/`convertFromRaw` with JSON: I/O and a foreign library.
- The internals of draft-js: `Modifier.replaceText` beyond the assumed splice, including style-range shifting and its behaviour on inverted, negative or cross-block ranges. Also `EditorState.push` undo/redo history and `RichUtils.toggleBlockType`/`toggleInlineStyle` on/off semantics. These are recorded in the plan as opaque effects.
- Block types and inline style ranges stored in blocks: the hook neither reads nor builds them itself.
- The `styleMap` presentation of `RED_LINE`, and the JSX rendering.
- JavaScript strings are UTF-16 code units; the model's characters are Unicode scalar values. Every trimmed code point is in the Basic Multilingual Plane, so trimming agrees. Lone surrogates are not representable.
