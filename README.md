# code-buddy editor core, modelled in Dafny

code-buddy is a React code editor: the user edits HTML, CSS and JavaScript in
tabs, sees a live preview in a sandboxed frame, and reads the console output
and runtime errors the preview reports back. This project models the logic
under that interface:

- **`Editor`** (`editor.dfy`, from `Editor.tsx`): the tab records
  `{id, name, content, language}`; the list transformations performed by the
  edit, language-change, add-tab, close-tab and load-file handlers; the preview
  document assembled from the first HTML, CSS and JavaScript tabs around the
  fixed console/error instrumentation script; the relay that turns the
  preview's `console` and `error` messages into log entries; and the component
  state (`tabs`, `activeTab`, `consoleOutput`, `errors`, the preview document)
  as a class whose methods are the handlers listed above (selecting a tab by
  clicking it is not one of them; see "Left out").
- **`CodeUtils`** (`code_utils.dfy`, from `code-utils.ts`): the
  extension-to-language table, the file-name split done on load and the file
  name built on save, `executeCode` with its fixed notices and error capture,
  the line-trimming formatter and the substring linter.
- **`Text`** (`text.dfy`): the JavaScript string operations these rely on
  (`split`, `join`, `includes`, `toLowerCase`, `trim`, decimal formatting of a
  number), each with its meaning proved (split/join round trips, `includes` as
  "occurs at some index", trim as removal of whitespace at both ends).
- **`Wrappers`** (`wrappers.dfy`): `Option`.

Behaviour of the code a reader might not expect:

- When several tabs share a language, the preview uses the **first** one
  (`find`), not the last one.
- The relay keeps no severity level: a console message contributes only its
  `content`.
- The relay checks neither the sender nor a generation tag: every message of
  type `console` or `error` is appended, whatever frame posted it.
- `executeCode` evaluates only the exact tag `javascript`. Any tag other
  than `javascript`, `html` and `css` (`typescript` included) gets the
  "not supported" notice.

The class methods change state, so their contracts use `old`. What is proved
about their effects lives in the lemmas about the functions they are specified
by:

- `SetContent`, `SetLanguage`, `RemoveTab` and `Assemble` for the tabs;
- `Relay` and `RelayAll` for the logs.

Each handler's `modifies` clause names only the fields it replaces. So, for
example, rebuilding the preview cannot touch the logs, and the tab handlers
cannot touch them either.

## Model

| member | source | states |
|---|---|---|
| Editor.SetContent | code-buddy/src/components/Editor.tsx:40-44 | editing tab `t` keeps length, order, ids, names and languages; only the content of the entries with id `t` becomes the new value |
| Editor.SetContentLastWins | code-buddy/src/components/Editor.tsx:40-44 | of two edits of the same tab, the later one decides the content |
| Editor.SetLanguage | code-buddy/src/components/Editor.tsx:46-50 | changing the language of tab `t` keeps length, order, ids, names and contents; only the language of the entries with id `t` changes |
| Editor.RemoveTab | code-buddy/src/components/Editor.tsx:59 | no tab with id `t` is left after closing `t`, and the list does not grow |
| Editor.RemoveTabKeeps | code-buddy/src/components/Editor.tsx:59 | a tab is kept exactly when it was in the list and its id is not `t` |
| Editor.RemoveTabSplits | code-buddy/src/components/Editor.tsx:59 | closing works piece by piece over a concatenation, so the relative order of the kept tabs is preserved |
| Editor.RemoveAbsentTab | code-buddy/src/components/Editor.tsx:59 | closing an id no tab has leaves the list as it was |
| Editor.NewTab | code-buddy/src/components/Editor.tsx:53 | the new tab has the given id, empty content, language `javascript` and the name `Untitled ` followed by the old tab count plus one |
| Editor.NewTabNumber | code-buddy/src/components/Editor.tsx:53 | the digits after `Untitled ` in the new tab's name read back as the old tab count plus one |
| Editor.LoadedTab | code-buddy/src/components/Editor.tsx:83 | a loaded file becomes a tab with the new id and the file's name, content and language |
| Editor.ActiveAfterClose | code-buddy/src/components/Editor.tsx:60-62 | closing the active tab activates the first tab of the list before closing; closing another tab keeps the active id; the list must be non-empty in the first case |
| Editor.CloseActiveFirstTab | code-buddy/src/components/Editor.tsx:58-63 | closing the active tab when it is the first tab leaves the active id naming the closed tab, which no remaining tab has |
| Editor.FirstOfLanguage | code-buddy/src/components/Editor.tsx:89-91 | the search returns the index of the first tab in the language, or none exactly when no tab is in it |
| Editor.Section | code-buddy/src/components/Editor.tsx:89-91 | the content of the tab `find` returns for the language, or `''`: the section is empty or the content of some tab in that language; `SectionIsFirstMatch` says which tab |
| Editor.SectionIsFirstMatch | code-buddy/src/components/Editor.tsx:89-91 | the preview section of a language is the content of the first tab in it |
| Editor.MissingLanguageIsEmpty | code-buddy/src/components/Editor.tsx:89-91 | a language with no tab contributes the empty string |
| Editor.Render | code-buddy/src/components/Editor.tsx:93-120 | fills the template literal with the three sections; where each lands is stated by `PreviewLayout` |
| Editor.AssembleWith | code-buddy/src/components/Editor.tsx:89-120 | the document a template gives for the current tabs, built from the three `Section`s; stated by `PreviewLayout` |
| Editor.Assemble | code-buddy/src/components/Editor.tsx:87-120 | the document `updatePreview` writes into the frame, the editor's own template filled from the tabs; stated by `PreviewLayout`, `AddTabKeepsPreview`, `EditFirstTabShows` and `EditShadowedTabKeepsPreview` |
| Editor.PreviewLayout | code-buddy/src/components/Editor.tsx:93-120 | for any template the document is the template's head, the CSS section, the template's text up to the body, the HTML section, the instrumentation script, then the JavaScript section and the tail, each at its stated offset; for the editor's own template the head ends in `<style>`, so the CSS lands in the style element and the instrumentation comes before the user's script |
| Editor.FirstOfLanguageAppend | code-buddy/src/components/Editor.tsx:89-91 | appending a tab keeps any first match already found, and otherwise finds the new tab when it is in the language |
| Editor.SectionAfterAppend | code-buddy/src/components/Editor.tsx:83-91 | after an appended (for example loaded) tab, a section changes only when no earlier tab had that language, and then shows the new tab |
| Editor.AddTabKeepsPreview | code-buddy/src/components/Editor.tsx:52-56 | adding an empty JavaScript tab never changes the preview document |
| Editor.EditFirstTabShows | code-buddy/src/components/Editor.tsx:40-44 | editing the first tab of a language makes that language's section exactly the new content |
| Editor.EditShadowedTabKeepsPreview | code-buddy/src/components/Editor.tsx:40-44 | editing tabs none of which is the first HTML, CSS or JavaScript tab leaves the preview document unchanged |
| Editor.Relay | code-buddy/src/components/Editor.tsx:130-136 | a `console` message appends its content to the console log, an `error` message appends `{content, line, column}` to the error log, each leaving the other log alone; any other type changes nothing |
| Editor.RelayAll | code-buddy/src/components/Editor.tsx:130-138 | the logs after a run of messages, each handled in turn by the listener; stated by `RelayAllAppends` |
| Editor.RelayAllAppends | code-buddy/src/components/Editor.tsx:130-136 | after any run of messages the old entries are unchanged and followed by one entry per console (resp. error) message, in arrival order |
| Editor.EditorState.constructor | code-buddy/src/components/Editor.tsx:26-37 | the editor starts with the three sample tabs, tab 1 active, empty logs and an empty frame |
| Editor.EditorState.ChangeCode | code-buddy/src/components/Editor.tsx:40-44 | the tab list becomes `SetContent` of the old one; nothing else changes |
| Editor.EditorState.ChangeLanguage | code-buddy/src/components/Editor.tsx:46-50 | the tab list becomes `SetLanguage` of the old one; nothing else changes |
| Editor.EditorState.AddTab | code-buddy/src/components/Editor.tsx:52-56 | exactly the new tab is appended after the unchanged old tabs, and its id becomes the active tab |
| Editor.EditorState.CloseTab | code-buddy/src/components/Editor.tsx:58-63 | the tab list becomes `RemoveTab` of the old one and the active id follows `ActiveAfterClose` on the list before closing |
| Editor.EditorState.LoadFile | code-buddy/src/components/Editor.tsx:80-85 | a picked file appends exactly one tab with its name, content and language; no file leaves the tabs alone |
| Editor.EditorState.UpdatePreview | code-buddy/src/components/Editor.tsx:87-123 | a mounted frame gets the assembled document; tabs and logs are untouched |
| Editor.EditorState.HandleMessage | code-buddy/src/components/Editor.tsx:130-136 | the logs become `Relay` of the old logs: one console entry for `console`, one error entry for `error`, nothing for any other type |
| CodeUtils.LanguageFromExtension | code-buddy/src/components/code-utils.ts:91-104 | `html`, `css`, `ts` map (in any letter case) to `html`, `css`, `typescript`, anything else to `javascript`; the result is always one of those four |
| CodeUtils.ExtensionCaseInsensitive | code-buddy/src/components/code-utils.ts:92 | an extension and its lower-case form map to the same language |
| CodeUtils.SplitFileName | code-buddy/src/components/code-utils.ts:77-78 | the extension is the last dot-separated piece and holds no dot |
| CodeUtils.SplitFileNameRecombines | code-buddy/src/components/code-utils.ts:77-78 | for a name with a dot, name + `.` + extension is the file name |
| CodeUtils.SplitFileNameWithoutDot | code-buddy/src/components/code-utils.ts:77-78 | a name without a dot gives an empty name and the whole name as extension |
| CodeUtils.SaveFileName | code-buddy/src/components/code-utils.ts:59 | the saved file's name always contains a dot |
| CodeUtils.LoadedFile | code-buddy/src/components/code-utils.ts:76-80 | a loaded file keeps its text and gets one of the four language tags |
| CodeUtils.SaveFileNameSplitsBack | code-buddy/src/components/code-utils.ts:59-78 | splitting a saved name gives back the tab name, even one with dots, and the language tag |
| CodeUtils.SaveLoadRoundTrip | code-buddy/src/components/code-utils.ts:59-104 | saving an HTML, CSS or JavaScript tab and loading the file gives back its name, text and language |
| CodeUtils.TypescriptReloadsAsJavascript | code-buddy/src/components/code-utils.ts:91-104 | a TypeScript tab is saved with extension `typescript` and loads back as JavaScript |
| CodeUtils.ExecuteCode | code-buddy/src/components/code-utils.ts:12-51 | `html` and `css` give their fixed notices, other non-JavaScript tags the "not supported" notice, all without error; JavaScript gives the sandbox's log, or on a throw an empty output and the thrown message (or string form) as error; an error only ever comes from JavaScript |
| CodeUtils.TrimAll | code-buddy/src/components/code-utils.ts:117 | each line is replaced by its trimmed form, one for one |
| CodeUtils.FormatCode | code-buddy/src/components/code-utils.ts:106-126 | languages other than JavaScript, HTML and CSS are returned unchanged |
| CodeUtils.FormattedLines | code-buddy/src/components/code-utils.ts:117 | the lines of the formatted code are exactly the trimmed lines of the input |
| CodeUtils.FormatCodeKeepsLineCount | code-buddy/src/components/code-utils.ts:111-121 | formatting keeps the number of lines |
| CodeUtils.FormatCodeIdempotent | code-buddy/src/components/code-utils.ts:111-121 | formatting formatted code changes nothing |
| CodeUtils.LintCode | code-buddy/src/components/code-utils.ts:128-157 | at most one warning: JavaScript iff `var ` occurs, HTML iff the lower-cased code has no `<!doctype html>`, CSS iff `!important` occurs; other languages never |
| Text.Split | code-buddy/src/components/code-utils.ts:77-78 | `s.split(sep)` for a one-character separator: always at least one piece; its meaning is stated by `SplitPiecesLackSeparator`, `JoinSplit` and `SplitJoin` |
| Text.Join | code-buddy/src/components/code-utils.ts:77 | `parts.join(sep)`; stated by `JoinSplit` and `SplitJoin` as the inverse of `Split` |
| Text.SplitPiecesLackSeparator | code-buddy/src/components/code-utils.ts:77 | no piece of a split holds the separator |
| Text.JoinSplit | code-buddy/src/components/code-utils.ts:77 | joining the pieces of a split gives back the string |
| Text.SplitJoin | code-buddy/src/components/code-utils.ts:117 | splitting the join of separator-free pieces gives back the pieces |
| Text.Contains | code-buddy/src/components/code-utils.ts:136-146 | `s.includes(sub)`: a match is never longer than the text and the empty string is always found; `ContainsIff` states it exactly |
| Text.ContainsIff | code-buddy/src/components/code-utils.ts:136 | `includes` holds exactly when the substring occurs at some index |
| Text.ToLower | code-buddy/src/components/code-utils.ts:92 | `toLowerCase`: same length, each character lower-cased in place (ASCII letters only, see Left out) |
| Text.Trim | code-buddy/src/components/code-utils.ts:117 | the trimmed line has no whitespace at either end and only characters of the line |
| Text.TrimIsInfix | code-buddy/src/components/code-utils.ts:117 | the trimmed line is a contiguous slice of the line, and everything cut off before and after it is whitespace |
| Text.TrimBounds | code-buddy/src/components/code-utils.ts:117 | gives the bounds of that slice: the trimmed line is the line from the first to past the last kept character, with only whitespace outside them |
| Text.TrimIdempotent | code-buddy/src/components/code-utils.ts:117 | trimming twice equals trimming once |
| Text.NatToString | code-buddy/src/components/Editor.tsx:53 | the number in `Untitled ${…}`: a non-empty run of decimal digits without a leading zero; `DecimalRoundTrip` says it reads back as the number |
| Text.DecimalRoundTrip | code-buddy/src/components/Editor.tsx:53 | the decimal text of a tab number reads back as that number |

## Left out

- Rendering: the JSX, the Card/Tabs/Select/ScrollArea/CodeMirror components, and the split-view, fullscreen and preview toggles are pure UI.
- The preview frame is not modelled: its `srcdoc`/`sandbox` loading, the running of the assembled document, and the `postMessage`/`addEventListener` transport are browser machinery.
  The instrumentation script appears only as fixed text inside the assembled document.
  The relay receives an already-decoded message; a posted value that is not an object is not modelled.
- Editor.EditorState.LoadFile: the model runs the handler as one step, with nothing in between. The source builds the new list from the `tabs` it captured before awaiting the file read. Any edit, close or new tab made while the file is being read is therefore discarded, and the model does not capture that.
- Selecting a tab by clicking it sets `activeTab` to the clicked tab's id parsed back from its string form. The class has no method for this.
- Editor.EditorState.UpdatePreview: the effect that reruns it after every change of `tabs` is not enforced; callers invoke it.
- CodeUtils.ExecuteCode: the `javascript` branch builds and runs a function from the code. It is a parameter `runJavaScript` that returns the mock console's log or throws a value.
- The timers and promises around `executeCode`, `formatCode` and `lintCode` only delay their results; the synchronous bodies are modelled.
- `saveFile` and `loadFile` I/O (Blob, object URL, DOM anchor, file picker, `FileReader`) is left out. Only the file-name construction and split are kept. `loadFile` resolving `null` is the `None` argument of `LoadFile`.
- New tab ids come from `Date.now()`; they are a parameter `newId`. Nothing in the source makes them unique, so the model does not assume it.
- `errorLinter` is left out because it maps error positions through CodeMirror's document lines.
- `handleExecuteCode` and `handleSaveFile`, with the `output` state they set, are left out. They only look up the active tab and call `executeCode` or `saveFile`, which are modelled as `ExecuteCode` and `SaveFileName`.
- Text.ToLower: lower-cases the ASCII letters only, weaker than `toLowerCase`, which also lower-cases other scripts; the extensions and the doctype it is applied to are compared against ASCII text.
- Console severity levels, sender or generation checks on messages, and log capping are not in the source, so they are not modelled.
