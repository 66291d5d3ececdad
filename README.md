# Shacks Not Cathedrals — verified model of the interactive core

This project is a Dafny model of the logic inside the React components of the
"Shacks Not Cathedrals" journal site: the logic inside its five components.
It covers five parts:

- **Command console** of `ShacksCathedralsApp` (`App`). This is a class
  holding four pieces of state:
  - the terminal history, a sequence of lines;
  - the X-Ray flag;
  - the selected journal id;
  - the input field.

  `handleTerminalSubmit` first echoes the raw line as `> input`. It then
  lower-cases and trims the line and dispatches first-match-wins on
  `help`/`/help`, `xray`, `clear`, `about`, `view N` and a catch-all. The
  class's methods are proved against the pure state function `Submit`, and
  the lemmas about `Submit` state what each command does.
- **Terminal widget** (`Terminal`). This covers:
  - the blank-input guard of the form;
  - the styling chosen for each history line (command echo when the text
    starts with `>`, clickable/arrow when `isClickable`);
  - the blinking cursor, whose every tick negates the visibility.
- **Resizable panel** (`ResizablePanel`). Press, move and release drive a
  drag in which the size is clamped to `[minSize, maxSize]`. The effect over
  `isDragging` engages the document listeners and the body cursor/userSelect
  override exactly while a mounted panel is dragging.
- **xterm line editor** (`Xterm`). The `onKey` handler over the command
  buffer handles Enter, Backspace and printable keys, and the initial text is
  written at mount. The terminal is abstracted as the sequence of
  `write`/`writeln` calls made on it. A small screen model, covering
  backspace, overwrite and end of line, shows that the current row reads the
  prompt followed by the buffer, as long as no typed key carries a backspace
  character.
- **Journal lookup** (`Journal`). `getJournalData` finds an entry by id and
  falls back to the first entry. As a consequence, the content pane's
  "Failed to load journal entry" branch can never be taken.

`JsString` models the JavaScript built-ins the code relies on:

- `trim`, using the ECMAScript white-space and line-terminator set;
- `toLowerCase`;
- `startsWith`;
- `split(" ")`, with `join(" ")` as its inverse;
- `Number.parseInt`: leading white space, an optional sign, the `0x` prefix,
  then the maximal digit prefix, or NaN;
- the decimal rendering `${n}`.

`Optional` holds the `Option` type.

The model applies React state updates in program order. Because of this,
`clear` ends with an empty history: the functional append of its own echo
is queued before the replacement with `[]`.

A few details of the source's own behaviour carry over into the model:

- `view 0x3` selects entry 3, because `parseInt` reads the hex prefix.
- `view 2.5` selects entry 2, and `view 5x` entry 5, because `parseInt`
  stops at the first non-digit (`App.ViewInRange` with a tail).
- `view  3` with two spaces is an error, because `split(" ")[1]` is the
  empty string (`App.ViewEmptyToken`).

## Model

| member | source | states |
|---|---|---|
| App.ShacksCathedralsApp.constructor | components/shacks-cathedrals-app.tsx:14-19 | The initial state is the two boot lines, X-Ray off, entry 1 selected and an empty input. |
| App.ShacksCathedralsApp.AddToTerminal | components/shacks-cathedrals-app.tsx:32-34 | Exactly one line is appended to the history and nothing else changes. |
| App.ShacksCathedralsApp.ToggleXRayMode | components/shacks-cathedrals-app.tsx:22-30 | The flag is negated. The two activation lines are appended when it was off, the one deactivation line when it was on. |
| App.ShacksCathedralsApp.SetInput | components/terminal.tsx:103 | The input becomes the field's value and nothing else changes. |
| App.ShacksCathedralsApp.SelectJournal | components/shacks-cathedrals-app.tsx:179-192 | A navigation click selects that button's id. The selection stays in 1..5 and nothing else changes. |
| App.ShacksCathedralsApp.HandleTerminalSubmit | components/shacks-cathedrals-app.tsx:36-68 | The new state is `Submit` of the old state and the input, and the selection stays in 1..5. |
| App.ShacksCathedralsApp.SubmitForm | components/terminal.tsx:56-60 | Blank input leaves the whole state unchanged. Any other input runs the interpreter on the unmodified input. |
| App.Normalize | components/shacks-cathedrals-app.tsx:39 | `input.toLowerCase().trim()`, characterized by `JsString.LowerSpec` and `JsString.TrimSpec`; `App.SubmitCaseInsensitive` shows only the lower-cased input matters. |
| App.Classify | components/shacks-cathedrals-app.tsx:41-65 | The first-match dispatch on the normalized command, whose branches `App.SubmitHelp`, `App.SubmitXRay`, `App.SubmitClear`, `App.SubmitAbout`, `App.ClassifyView` and `App.SubmitUnrecognized` state one by one. |
| App.Responses | components/shacks-cathedrals-app.tsx:41-64 | The lines each branch appends after the echo, given literally by the branch lemmas and counted by `App.SubmitLineCount`. |
| App.Submit | components/shacks-cathedrals-app.tsx:36-68 | The state after a submit, which `App.ShacksCathedralsApp.HandleTerminalSubmit` is proved to reach and whose properties the `App.Submit*` and `App.View*` lemmas state. |
| App.SubmitHelp | components/shacks-cathedrals-app.tsx:39-46 | `help` or `/help`, after lower-casing and trimming, appends exactly the five help lines after the echo. |
| App.SubmitXRay | components/shacks-cathedrals-app.tsx:22-30 | After the echo, `xray` appends "Activating X-Ray mode..." and "Revealing hidden connections..." when the flag was off or only "Deactivating X-Ray mode..." when it was on, negates the flag and keeps the selection. |
| App.XRayTwiceRestores | components/shacks-cathedrals-app.tsx:47-48 | Two `xray` commands restore the flag and the selection, and the two directions report different lines. |
| App.SubmitClear | components/shacks-cathedrals-app.tsx:49-50 | `clear` leaves the history empty, its own echo included; the flag and selection are kept. |
| App.SubmitAbout | components/shacks-cathedrals-app.tsx:51-54 | `about` appends the three about lines after the echo. |
| App.ViewSplit | components/shacks-cathedrals-app.tsx:56 | A command starting `view ` splits into `view` followed by the fields of the rest, so `split(" ")[1]` exists. |
| App.ClassifyView | components/shacks-cathedrals-app.tsx:55-56 | `view ARG` with a space-free ARG passes ARG to `parseInt`. |
| App.ViewInRange | components/shacks-cathedrals-app.tsx:56-59 | `view N` with N in 1..5 selects N and appends "Navigating to journal entry N...". N may be followed by a tail that `parseInt` ignores, such as `.5` or `x`. |
| App.ParsedView | components/shacks-cathedrals-app.tsx:55-56 | `view ` followed by a decimal rendering N and a space-free tail that `parseInt` ignores classifies as `view` of N. |
| App.ViewOutOfRange | components/shacks-cathedrals-app.tsx:56-62 | `view N` with N outside 1..5 keeps the selection and appends the range error line. The same ignored tails are allowed. |
| App.ViewNegative | components/shacks-cathedrals-app.tsx:56-61 | `view -N` keeps the selection and appends the range error line. |
| App.ViewNotANumber | components/shacks-cathedrals-app.tsx:56-61 | `view ARG` with a space-free ARG whose first character is no sign, digit or white space parses to NaN, so the selection is kept and the range error line is appended. |
| App.NormalizeNeverBareView | components/shacks-cathedrals-app.tsx:39-56 | A normalized command never ends in white space, so it is never the bare `view `. The text after `view ` is therefore never empty. |
| App.ViewEmptyToken | components/shacks-cathedrals-app.tsx:56-61 | `view` followed by two spaces gives the empty token at `split(" ")[1]`, which parses to NaN, so the selection is kept and the range error line is appended. |
| App.ViewHexPrefix | components/shacks-cathedrals-app.tsx:56-59 | `view 0xN` with N in 1..5 selects N, because `parseInt` honours the hex prefix. |
| App.SubmitKeepsHistory | components/shacks-cathedrals-app.tsx:37 | Except for `clear`, earlier lines are never changed, and the next line is `"> " + input` with the raw casing and spacing. |
| App.SubmitLineCount | components/shacks-cathedrals-app.tsx:41-64 | The number of lines each branch adds after the echo is 5 for help, 1 or 2 for xray, 3 for about and 1 otherwise; `clear` leaves none. |
| App.SubmitUnrecognized | components/shacks-cathedrals-app.tsx:63-64 | Any other command appends exactly the echo and `"Command not recognized: " + input` with the raw input. |
| App.PhilosophyIsUnrecognized | components/shacks-cathedrals-app.tsx:63-64 | `philosophy` has no branch of its own: it is echoed and reported as not recognized. |
| App.SubmitKeepsSelectionValid | components/shacks-cathedrals-app.tsx:57-58 | The selection stays in 1..5 and only a `view` command changes it. |
| App.SubmitCaseInsensitive | components/shacks-cathedrals-app.tsx:39 | Inputs equal after lower-casing take the same branch and reach the same flag, selection and history length. |
| App.FixedLinesArePlain | components/shacks-cathedrals-app.tsx:42-61 | No fixed response line starts with `>`. |
| App.ResponsesArePlain | components/shacks-cathedrals-app.tsx:41-64 | No response of any branch starts with `>`. |
| App.SubmitEchoStyling | components/terminal.tsx:78 | After a submit, the echo is styled as an echo and no response line is. |
| App.BootLinesPlain | components/shacks-cathedrals-app.tsx:18 | The boot lines are not styled as echoes. |
| App.NavigationMatchesJournal | components/shacks-cathedrals-app.tsx:179-185 | The navigation offers exactly the journal's ids and titles in order, all in 1..5. |
| App.SelectionShowsThatEntry | components/mdx-content.tsx:406 | Every id the console can select names its own journal entry. |
| Terminal.HandleSubmit | components/terminal.tsx:56-60 | Nothing is forwarded exactly when the input is empty or all white space. Otherwise the input is forwarded unmodified. |
| Terminal.StyleOf | components/terminal.tsx:73-91 | Echo styling is applied if and only if the text starts with `>`. The clickable styling and the arrow marker appear exactly for `isClickable` items. |
| Terminal.CursorBlink.constructor | components/terminal.tsx:21 | The cursor starts visible. |
| Terminal.CursorBlink.Tick | components/terminal.tsx:34-36 | A tick negates the visibility, and the visibility equals the parity of the tick count. |
| Terminal.BlinkTwice | components/terminal.tsx:33-39 | Two ticks restore the visibility. |
| Journal.Find | components/mdx-content.tsx:406 | `find` returns nothing exactly when no entry has the id; otherwise it returns the first entry with the id. |
| Journal.EntryIdsInOrder | components/mdx-content.tsx:172-404 | The table holds five entries with ids 1..5 in order, so the ids are distinct. |
| Journal.GetJournalData | components/mdx-content.tsx:171-407 | The result is always in the table. An id in 1..5 gives that entry, and any other id gives the first entry. |
| Journal.FetchJournalContent | components/mdx-content.tsx:15-30 | The fetch always sets a journal, which is a table entry. |
| Journal.ContentFor | components/mdx-content.tsx:40-46 | The failure message is shown exactly when the journal is missing. |
| Journal.FailureBranchUnreachable | components/mdx-content.tsx:15-46 | For every id the failure branch is never shown. The pane shows a table entry, the requested one when it exists. |
| JsString.TrimStart | components/shacks-cathedrals-app.tsx:39 | Drops leading white space, characterized by `JsString.TrimStartSpec`. |
| JsString.TrimEnd | components/shacks-cathedrals-app.tsx:39 | Drops trailing white space, characterized by `JsString.TrimEndSpec`. |
| JsString.Trim | components/shacks-cathedrals-app.tsx:39 | `trim`, characterized by `JsString.TrimSpec`, `JsString.TrimEmptyIffBlank` and `JsString.TrimIdempotent`. |
| JsString.StartsWith | components/shacks-cathedrals-app.tsx:55 | `startsWith`, the prefix test: the prefix is no longer than the string and equals the string's first characters. |
| JsString.Lower | components/shacks-cathedrals-app.tsx:39 | `toLowerCase` on ASCII letters, characterized by `JsString.LowerSpec`. |
| JsString.TrimStartSpec | components/shacks-cathedrals-app.tsx:39 | Removing leading white space drops exactly the maximal white-space prefix. |
| JsString.TrimEndSpec | components/shacks-cathedrals-app.tsx:39 | Removing trailing white space drops exactly the maximal white-space suffix. |
| JsString.TrimSpec | components/shacks-cathedrals-app.tsx:39 | `trim` keeps a middle stretch of the input with only white space around it, and the result has no white space at either end. |
| JsString.TrimEmptyIffBlank | components/terminal.tsx:58 | `trim` gives the empty string if and only if the input is all white space. |
| JsString.TrimIdempotent | components/shacks-cathedrals-app.tsx:39 | Trimming twice is trimming once. |
| JsString.TrimKeepsTrimmed | components/shacks-cathedrals-app.tsx:39 | A string with no white space at either end is its own trim. |
| JsString.LowerSpec | components/shacks-cathedrals-app.tsx:39 | Lower-casing keeps the length and maps each character on its own. |
| JsString.LowerNoUpper | components/shacks-cathedrals-app.tsx:39 | A string without capitals is its own lower-case form. |
| JsString.SplitSpace | components/shacks-cathedrals-app.tsx:56 | `split(" ")` always yields at least one piece. |
| JsString.SplitPiecesHaveNoSpace | components/shacks-cathedrals-app.tsx:56 | No piece of the split holds a space. |
| JsString.SplitNoSpace | components/shacks-cathedrals-app.tsx:56 | A space-free string splits into itself alone. |
| JsString.JoinSplit | components/shacks-cathedrals-app.tsx:56 | Joining the pieces with single spaces gives back the input. |
| JsString.SplitAfterWord | components/shacks-cathedrals-app.tsx:56 | Splitting a space-free word, a space and a rest gives the word followed by the split of the rest. |
| JsString.DigitOf | components/shacks-cathedrals-app.tsx:56 | Character digit values lie in 0..36, where 36 means "not a digit". |
| JsString.DigitPrefix | components/shacks-cathedrals-app.tsx:56 | The result is the maximal prefix made of digits of the radix. |
| JsString.ParseDigits | components/shacks-cathedrals-app.tsx:56 | The parse fails exactly when the first character is not a digit of the radix. |
| JsString.ParseUnsigned | components/shacks-cathedrals-app.tsx:56 | After the sign, a `0x`/`0X` prefix selects base 16 and anything else base 10, as `JsString.ParseHex` and `JsString.ParseDecimal` state. |
| JsString.ParseInt | components/shacks-cathedrals-app.tsx:56 | `Number.parseInt`, whose decimal, negative, hex and NaN cases `JsString.ParseDecimal`, `JsString.ParseNegative`, `JsString.ParseHex` and `JsString.ParseNoDigit` state. |
| JsString.ParseDecimal | components/shacks-cathedrals-app.tsx:56 | `parseInt` reads back any decimal rendering. A non-digit tail is ignored, except that `x`/`X` after the rendering `0` forms the hex prefix. |
| JsString.ParseNegative | components/shacks-cathedrals-app.tsx:56 | A minus sign before a decimal rendering gives the negated value. |
| JsString.ParseHex | components/shacks-cathedrals-app.tsx:56 | After a `0x` prefix the digits are read in base 16. |
| JsString.ParseNoDigit | components/shacks-cathedrals-app.tsx:56 | A string with no white space, sign or digit at its start parses to NaN. |
| JsString.DecimalDigit | components/shacks-cathedrals-app.tsx:59 | A rendered digit has its own digit value. |
| JsString.DecimalString | components/shacks-cathedrals-app.tsx:59 | The decimal rendering is a non-empty string of decimal digits. |
| JsString.DecimalValue | components/shacks-cathedrals-app.tsx:59 | The decimal rendering denotes the number itself. |
| JsString.DigitPrefixAll | components/shacks-cathedrals-app.tsx:56 | A string made only of digits is its own maximal digit prefix. |
| JsString.DigitPrefixTail | components/shacks-cathedrals-app.tsx:56 | The maximal digit prefix stops at the first non-digit. |
| ResizablePanel.Clamp | components/ui/resizable-panel.tsx:46 | For `minSize <= maxSize` the result lies in the bounds. It is the value itself when the value is within the bounds, and the nearer bound otherwise. |
| ResizablePanel.DragSize | components/ui/resizable-panel.tsx:43-46 | The anchor size plus the pointer's travel as a percentage of the width, clamped, stated by `ResizablePanel.Clamp`, `ResizablePanel.DragSizeMonotone` and `ResizablePanel.NoDriftAtZeroMovement`. |
| ResizablePanel.MouseDown | components/ui/resizable-panel.tsx:29-37 | Starts the drag anchored at the pointer and the current size, which `ResizablePanel.Panel.HandleMouseDown` is proved to reach. |
| ResizablePanel.MouseMove | components/ui/resizable-panel.tsx:39-51 | Ignored unless dragging, else the size becomes `DragSize` of the anchor, as `ResizablePanel.MovesWhileIdle` and `ResizablePanel.MovesPathIndependent` state. |
| ResizablePanel.MouseUp | components/ui/resizable-panel.tsx:53-55 | Ends the drag, stated by `ResizablePanel.MouseUpIdempotent`. |
| ResizablePanel.MovesPathIndependent | components/ui/resizable-panel.tsx:44-46 | During a drag, any run of moves leaves the size given by the anchor and the last pointer position alone. The anchor and drag flag are unchanged. |
| ResizablePanel.MovesWhileIdle | components/ui/resizable-panel.tsx:41 | Moves while not dragging change nothing. |
| ResizablePanel.MovesStayInBounds | components/ui/resizable-panel.tsx:46 | After any moves of a drag the size lies in `[minSize, maxSize]`. |
| ResizablePanel.NoDriftAtZeroMovement | components/ui/resizable-panel.tsx:29-46 | Pressing and moving back to the press position restores an in-bounds size. |
| ResizablePanel.DragSizeMonotone | components/ui/resizable-panel.tsx:44-46 | The size never decreases as the pointer moves right. |
| ResizablePanel.MouseUpIdempotent | components/ui/resizable-panel.tsx:53-55 | Release ends the drag, keeps the size, and releasing twice is releasing once. |
| ResizablePanel.Panel.constructor | components/ui/resizable-panel.tsx:16-26 | Mounting sets the size and the anchor size to `defaultSize`, not dragging, with no override on the body. |
| ResizablePanel.Panel.WithDefaultBounds | components/ui/resizable-panel.tsx:18-20 | Without bounds props, the bounds are 15 and 50. |
| ResizablePanel.Panel.DragEffect | components/ui/resizable-panel.tsx:58-81 | After cleanup and re-run, the listeners and the body override are engaged exactly when dragging. |
| ResizablePanel.Panel.HandleMouseDown | components/ui/resizable-panel.tsx:29-37 | A press starts dragging and anchors at the pointer and the current size; the override is engaged. |
| ResizablePanel.Panel.HandleMouseMove | components/ui/resizable-panel.tsx:39-51 | Moves are ignored unless dragging. While dragging, the size is recomputed from the anchor, within the bounds. |
| ResizablePanel.Panel.HandleMouseUp | components/ui/resizable-panel.tsx:53-55 | Release ends dragging and clears the override. Releasing while idle changes nothing. |
| ResizablePanel.Panel.Unmount | components/ui/resizable-panel.tsx:75-80 | Cleanup detaches the listeners and clears the override even mid-drag, keeping the state. |
| Xterm.WriteLinesSpec | components/xterm-component.tsx:46-48 | One `writeln` is made per initial line, in order. |
| Xterm.XtermComponent.constructor | components/xterm-component.tsx:45-51 | The mount writes each initial line, an empty line and the prompt, with an empty buffer and no command. |
| Xterm.XtermComponent.OnKey | components/xterm-component.tsx:54-75 | The key handler updates buffer, writes and commands as `HandleKey` does. |
| Xterm.Boot | components/xterm-component.tsx:45-51 | The state after mount, which `Xterm.XtermComponent.constructor` is proved to reach and `Xterm.BootShowsPrompt` shows leaves the prompt on screen. |
| Xterm.HandleKey | components/xterm-component.tsx:54-75 | The key handler, whose branches `Xterm.EnterSubmitsIffNotBlank`, `Xterm.BackspaceOnEmptyIsNoOp`, `Xterm.BackspaceUndoesTyping`, `Xterm.ModifiedKeysIgnored` and `Xterm.TypingAccumulates` state. |
| Xterm.EnterSubmitsIffNotBlank | components/xterm-component.tsx:57-64 | Enter always writes a newline and the prompt and empties the buffer. It calls `onCommand` with the exact buffer if and only if the buffer is not blank and a handler exists. |
| Xterm.BackspaceOnEmptyIsNoOp | components/xterm-component.tsx:65-70 | Backspace on an empty buffer changes nothing and writes nothing. |
| Xterm.BackspaceUndoesTyping | components/xterm-component.tsx:65-74 | One printable character followed by Backspace restores the buffer; only the key and `"\b \b"` are written. |
| Xterm.ModifiedKeysIgnored | components/xterm-component.tsx:55-74 | A key other than Enter or Backspace held with Alt, Ctrl or Meta changes nothing. |
| Xterm.HistoryOnlyGrows | components/xterm-component.tsx:54-75 | Writes and commands only grow, by at most one command per key. |
| Xterm.TypingAccumulates | components/xterm-component.tsx:71-74 | Ordinary keystrokes append their keys to the buffer and call nothing. |
| Xterm.TypedLineIsSubmitted | components/xterm-component.tsx:57-74 | A non-blank line typed at an empty prompt and followed by Enter is handed to `onCommand`, exactly. |
| Xterm.PutGlyphs | components/xterm-component.tsx:71-73 | Writing a key's text extends the shown row by that text. |
| Xterm.EraseLastGlyph | components/xterm-component.tsx:69 | Writing `"\b \b"` takes the last glyph off the shown row. |
| Xterm.PromptOnFreshRow | components/xterm-component.tsx:64 | The prompt written on an empty row reads as itself. |
| Xterm.NewPrompt | components/xterm-component.tsx:59-64 | An empty line and the prompt end the row, whatever it holds, and show a fresh prompt. |
| Xterm.BootShowsPrompt | components/xterm-component.tsx:46-51 | After mount, the current row is the prompt, whatever the initial text. |
| Xterm.KeyKeepsEcho | components/xterm-component.tsx:54-75 | Each key keeps the current row equal to the prompt followed by the buffer. Enter, Backspace and ignored keys may be anything. A key typed into the buffer must not carry a backspace character. |
| Xterm.EnterKeepsLineOnScreen | components/xterm-component.tsx:57-64 | On Enter, the row that scrolls up starts with the prompt and the submitted text. |
| Xterm.FeedKeepsEcho | components/xterm-component.tsx:54-75 | Across any run of keys whose typed ones carry no backspace character, the current row stays the prompt followed by the buffer. |
| Xterm.SessionEchoesBuffer | components/xterm-component.tsx:46-75 | In every session from mount whose typed keys carry no backspace character, the current row reads the prompt followed by exactly the buffer. |

## Left out

- JSX markup, Tailwind classes, icons, the footer and header text, and the
  mobile `Sheet`/`useMediaQuery` layout: presentation only.
- React scheduling and batching: state updates are applied in program order.
- DOM plumbing beyond what the state shows: the auto-scroll of the history,
  focusing the input on click, and `preventDefault`. The panel's listeners
  are modelled as one flag, not as registrations of particular function
  objects.
- The xterm.js and FitAddon construction, `fit()` on window resize, and
  `dispose`: foreign library calls. They are abstracted as the sequence of
  `write`/`writeln` calls.
- Re-running the xterm mount effect. Its dependencies are
  `[initialText, onCommand]` (components/xterm-component.tsx:90). The default
  `initialText = []` (line 13) is a new array on each render. So every
  re-render of the parent disposes the terminal and writes the initial text
  and a fresh prompt again, while `commandBufferRef` keeps its text.
  `Xterm.Boot`, with its empty buffer, and `Xterm.SessionEchoesBuffer`
  describe only the session that starts at the first mount.
- `Screen` models how xterm.js draws text in a simplified way. Every
  character other than backspace is one glyph one column wide. Other control
  characters, escape sequences (arrow keys send them as `key`), wide
  characters, tab stops and line wrapping are not modelled. The echo lemmas
  therefore assume that typed keys carry no backspace character. Enter,
  Backspace and ignored keys are unrestricted.
- The cursor-blink timer (`setInterval` at 530 ms) and its cleanup: only the
  toggle is kept.
- The date in the terminal header: it depends on the clock.
- The journal prose, the X-Ray annotations and the rest of the content
  pane's markup: entries are modelled by id, title and date.
- The `async` wrapper and the `loading` flag of the content pane: the
  lookup is synchronous and cannot throw, so only the final view is
  modelled.
- `onClick` callbacks on history items: the console never passes any.
  `isClickable` is always false for the console's own lines.
- JsString.Lower: maps only the ASCII capitals A-Z. The full Unicode
  lower-case mapping, under which a few non-ASCII letters change length or
  map into ASCII, is not modelled.
- Strings are sequences of Dafny characters, whereas JavaScript strings are
  UTF-16 code units. A character outside the Basic Multilingual Plane is one
  element here and two in JavaScript, for instance when `slice(0, -1)`
  removes half of it.
- JsString.ParseInt: returns an unbounded integer where JavaScript returns
  a double. The two only differ beyond 2^53, which never passes the 1..5
  range test.
- ResizablePanel.Panel.HandleMouseMove: sizes and positions are real
  numbers rather than IEEE doubles, so rounding is not modelled. The window
  width must be positive; a zero width, which would give NaN or Infinity in
  the source, is not modelled.
- `handleTerminalSubmit` has no `philosophy` branch, so that word falls to
  the catch-all (`App.PhilosophyIsUnrecognized`).
- The X-Ray state is only stored and toggled here. How the content pane
  renders its annotations is presentation and is not part of this model.
