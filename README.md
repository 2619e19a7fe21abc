# Portfolio terminal session, modelled in Dafny

The portfolio site is shaped like a shell prompt. The user types a command such as `about`, `skills` or `theme ubuntu`, presses Enter, and the page echoes the command and then shows a block of content. ArrowUp and ArrowDown step through the commands entered so far. The repository contains two versions of this terminal, and they behave differently:

- **The monolithic terminal** (`src/App.tsx`). One component owns these fields:
  - the input buffer;
  - the output blocks;
  - the theme (matrix, ubuntu or arch);
  - the history;
  - a history cursor counted from the *end* of the history, where -1 means "not browsing".

  `handleKeyDown` handles the three keys. `processCommand` dispatches on the first word of the lower-cased command.
- **The split terminal** (`src/components/TerminalInput.tsx` together with `src/utils/commandHandler.ts`). The input line owns the buffer and its width. The history, the cursor, the outputs and the theme belong to the parent. Here the cursor is counted from the *start*, and `history.length` means "not browsing". `executeCommand` returns one reply block and performs at most one side effect: it either empties the outputs or switches the theme. A theme switch rewrites three things: the root element's class list, the `theme` entry of local storage, and the theme state.

The model has seven modules:

| module | file | models |
|---|---|---|
| `Wrappers` | `wrappers.dfy` | an `Option` type |
| `Text` | `text.dfy` | JavaScript's `trim`, `toLowerCase` and `split(" ")` |
| `Themes` | `themes.dfy` | the closed theme type and its names |
| `Recall` | `recall.dfy` | the (cursor, buffer) pair both history keys update |
| `AppTerminal` | `app_terminal.dfy` | the monolithic terminal, as class `Terminal` |
| `CommandHandler` | `command_handler.dfy` | `executeCommand`, plus class `Host` for the state it touches |
| `TerminalInput` | `terminal_input.dfy` | the split terminal's input line, as class `TerminalInput` |

A separate module, `Variants` (`variants.dfy`), states where the two terminals agree and where exactly they differ.

Conventions used throughout:

- Each key press is a method. Its contract gives the whole new state, using a pure function of the old state (`Older`, `Newer`, `Respond`, `ReplyOf`, `EffectOf`).
- Lemmas about those functions state what the terminal promises.
- Output blocks are abstract tags, not markup.
- Queued React state updates inside one handler are applied in the order they are issued. So in the split terminal, `clear` empties the outputs *before* the input line appends the prompt and the reply.

Three consequences of the code are easy to miss:

- `executeCommand` recognises only `clear`, `help`, `theme`, `about` and `skills`. Every other word, `projects` included, gets "Command not found" in the split terminal.
- `clear` returns an empty fragment in the split terminal and adds no block at all in the monolithic one.
- Words are split at single spaces, so two spaces leave an empty word. See `CommandHandler.TwoSpacesDoNotSwitch` and `AppTerminal.ThemeUsageOtherwise`.

## Model

| member | source | states |
|---|---|---|
| Text.Trim | src/App.tsx:92 | `trim` returns a string with no white space at either end, and returns the empty string exactly when the input is all white space (the ECMAScript white space and line terminator characters) |
| Text.TrimOfPadded | src/App.tsx:92 | a trimmed middle between two blank strings is exactly what `trim` returns |
| Text.TrimIgnoresPadding | src/App.tsx:92 | white space added around a line does not change its trimmed form |
| Text.TrimIdempotent | src/utils/commandHandler.ts:20 | trimming the already trimmed line that TerminalInput passes in changes nothing |
| Text.TrimLowerCommute | src/utils/commandHandler.ts:20 | lower-casing then trimming (commandHandler) equals trimming then lower-casing (App) |
| Text.LowerIdempotent | src/utils/commandHandler.ts:20 | lower-casing twice is lower-casing once |
| Text.ToLower | src/utils/commandHandler.ts:20 | `toLowerCase` keeps the length, leaves no capital letter, and changes no other character |
| Text.Split | src/App.tsx:134 | `split(" ")` returns at least one piece, and no piece contains a space |
| Text.JoinSplit | src/App.tsx:134 | joining the pieces with single spaces gives back the split string |
| Text.SplitJoin | src/utils/commandHandler.ts:21 | pieces without spaces, joined and split again, come back unchanged |
| Text.SplitAfterDoubleSpace | src/utils/commandHandler.ts:21 | two spaces in a row leave an empty piece between the words |
| Text.Utf16Length | src/components/TerminalInput.tsx:28 | `length` counts UTF-16 code units: between one and two per character, and exactly one per character when none is outside the Basic Multilingual Plane |
| Themes.Parse | src/App.tsx:391-392 | only `matrix`, `ubuntu` and `arch` name a theme, and each selects the theme it names |
| AppTerminal.Tokens | src/App.tsx:92-135 | the words `processCommand` sees for a line (trimmed, lower-cased, split at single spaces) are at least one, and none holds a space |
| AppTerminal.AvailableCommands | src/App.tsx:38-49 | the `cmd` names of `availableCommands`, in listing order; `HelpListsCommands` relates them to the switch |
| AppTerminal.Respond | src/App.tsx:133-418 | the block `processCommand` appends: none exactly for `clear`; `NotFound(word)` exactly when the first word has no case; a theme confirmation only for the theme named by the second word |
| AppTerminal.NextTheme | src/App.tsx:390-408 | the theme changes only for `theme <name>` with a valid name, and then to the named theme |
| AppTerminal.TokensIgnoreCase | src/App.tsx:109 | typing a line in capitals selects the same words |
| AppTerminal.TokensIgnorePadding | src/App.tsx:92 | white space around the line selects the same words |
| AppTerminal.UpperCaseExample | src/App.tsx:104-109 | `ABOUT` runs the `about` case |
| AppTerminal.ThemeSelects | src/App.tsx:390-399 | `theme <name>` selects and confirms that theme, whatever words follow |
| AppTerminal.ThemeUsageOtherwise | src/App.tsx:390-407 | a missing, unknown or empty theme word gives the usage block and keeps the theme |
| AppTerminal.ThemeIdempotent | src/App.tsx:390-393 | running the same `theme` line twice selects the same theme as running it once |
| AppTerminal.HelpListsCommands | src/App.tsx:38-49 | the help listing contains every command `processCommand` handles except `help`, and nothing else |
| AppTerminal.Older | src/App.tsx:113-119 | ArrowUp keeps the cursor in -1..\|history\|-1, moves it one step older or keeps it on the oldest entry, and loads the entry under the cursor; with no history, nothing changes |
| AppTerminal.Newer | src/App.tsx:120-130 | ArrowDown moves one step newer and loads that entry; from the newest entry it stops browsing and empties the buffer; when not browsing, nothing changes |
| AppTerminal.NewerUndoesOlder | src/App.tsx:113-130 | below the oldest entry, ArrowDown after ArrowUp restores the cursor and shows the entry it returns to |
| AppTerminal.UpPressesReach | src/App.tsx:115-118 | k ArrowUp presses go k entries back and stop at the oldest one |
| AppTerminal.RecallAfterEnter | src/App.tsx:96-97 | after a command, the i-th ArrowUp recalls the i-th newest command, and every later press recalls the oldest |
| AppTerminal.Terminal.constructor | src/App.tsx:52-74 | a new terminal starts with an empty buffer and history, only the welcome block, the matrix theme, and the cursor not browsing |
| AppTerminal.Terminal.Change | src/App.tsx:477 | the buffer takes the typed value |
| AppTerminal.Terminal.Enter | src/App.tsx:90-112 | a blank line changes nothing, not even the buffer. Otherwise: the trimmed line is appended to history; the cursor becomes -1; the buffer empties; the theme follows `NextTheme`; the outputs gain the raw echo and the command's block, or become empty for `clear` |
| AppTerminal.Terminal.ProcessCommand | src/App.tsx:133-418 | the outputs and theme after the switch are exactly `Respond` and `NextTheme` of the words |
| AppTerminal.Terminal.ArrowUp | src/App.tsx:113-119 | the cursor and buffer become `Older` of the old ones, and the cursor stays in range |
| AppTerminal.Terminal.ArrowDown | src/App.tsx:120-130 | the cursor and buffer become `Newer` of the old ones, and the cursor stays in range |
| CommandHandler.Find | src/utils/commandHandler.ts:46-48 | returns nothing exactly when no label lower-cases to the word; otherwise returns the first entry whose label does |
| CommandHandler.Tokens | src/utils/commandHandler.ts:20-22 | the words of `command.toLowerCase().trim().split(" ")` are at least one, and none holds a space |
| CommandHandler.ReplyOf | src/utils/commandHandler.ts:24-56 | the reply is the empty fragment exactly for `clear`, the help text exactly for `help`, and a theme confirmation or the usage text exactly for `theme` |
| CommandHandler.EffectOf | src/utils/commandHandler.ts:24-40 | the outputs are cleared exactly for `clear`, and the theme is switched exactly for `theme` with a valid theme word |
| CommandHandler.Message | src/utils/commandHandler.ts:26-56 | the text shown is empty only for the fragment of `clear` (or an option whose value is empty) |
| CommandHandler.ThemeArgument | src/utils/commandHandler.ts:34-35 | a theme is chosen exactly when a second word exists and lower-cases to a theme name, and the chosen theme is the one named |
| CommandHandler.RemoveClasses | src/utils/commandHandler.ts:36 | `classList.remove` never lengthens the list |
| CommandHandler.RemoveClassesMembers | src/utils/commandHandler.ts:36 | after the removal, a class is present exactly when it was present before and is not one of the removed tokens |
| CommandHandler.AddClass | src/utils/commandHandler.ts:37 | `classList.add` keeps every existing class in order, makes the token present, adds at most one entry, and changes nothing when the token is already there |
| CommandHandler.SwitchClasses | src/utils/commandHandler.ts:36-37 | the class list after a switch holds the new theme's class and grows by at most one entry; `SwitchClassesExact` gives it exactly |
| CommandHandler.Host.AppendOutputs | src/components/TerminalInput.tsx:45-54 | a functional `setOutputs` update appends the lines to whatever the list holds at that moment |
| CommandHandler.ExecuteCommand | src/utils/commandHandler.ts:15-57 | returns `ReplyOf` of the words; empties the outputs exactly for `clear` and leaves them unchanged otherwise; for a valid theme, sets the theme state, the storage entry and the class list; for every other command, leaves those three unchanged |
| CommandHandler.TokensIgnoreCase | src/utils/commandHandler.ts:20 | letter case does not change the words |
| CommandHandler.TokensIgnorePadding | src/utils/commandHandler.ts:20 | white space around the command does not change the words |
| CommandHandler.NotFoundExactly | src/utils/commandHandler.ts:45-56 | the reply is "not found" exactly when the first word is none of clear/help/theme and no option label, and the reply names that word |
| CommandHandler.OptionReplies | src/utils/commandHandler.ts:4-8 | `about` and `skills` answer with their `data.options` value |
| CommandHandler.ReplyMatchesEffect | src/utils/commandHandler.ts:24-43 | an empty fragment comes exactly with clearing, "Theme changed to X" exactly with switching to X, and every other reply with no effect |
| CommandHandler.InvalidThemeArgument | src/utils/commandHandler.ts:33-43 | a missing or unknown theme word gives the usage text and no effect |
| CommandHandler.ThemeIgnoresExtraWords | src/utils/commandHandler.ts:34 | words after `theme <name>` change neither the reply nor the effect |
| CommandHandler.NamePlain | src/utils/commandHandler.ts:35 | the theme names contain no space and no capital letter |
| CommandHandler.OneSpaceSwitches | src/utils/commandHandler.ts:21-40 | `theme <name>` with one space switches to that theme |
| CommandHandler.TwoSpacesDoNotSwitch | src/utils/commandHandler.ts:21-42 | with two spaces the second word is empty, and only the usage text is shown |
| CommandHandler.SwitchClassesExact | src/utils/commandHandler.ts:36-37 | after a switch to X, X is the only theme class on the root element, and the non-theme classes are kept in order |
| CommandHandler.SwitchIdempotent | src/utils/commandHandler.ts:36-38 | switching to the same theme twice leaves the same class list and storage as switching once |
| CommandHandler.RemoveOfRemoved | src/utils/commandHandler.ts:36 | removing tokens from a list that has none of them changes nothing |
| CommandHandler.RemoveAppend | src/utils/commandHandler.ts:36 | removal distributes over concatenation |
| TerminalInput.Width | src/components/TerminalInput.tsx:27-29 | the width is at least one and at least the buffer's `length` in UTF-16 code units, and equals one of the two |
| TerminalInput.WidthCountsCodeUnits | src/components/TerminalInput.tsx:28 | an emoji alone makes the box two wide, like two ASCII letters; an empty buffer makes it one wide |
| TerminalInput.Older | src/components/TerminalInput.tsx:70-76 | ArrowUp moves one step older and loads that entry when the cursor is above 0, and otherwise changes nothing; the cursor stays in 0..\|history\| |
| TerminalInput.Newer | src/components/TerminalInput.tsx:77-87 | ArrowDown below the newest entry moves one step newer and loads it; otherwise the cursor becomes \|history\| and the buffer empties |
| TerminalInput.NewerUndoesOlder | src/components/TerminalInput.tsx:70-87 | above the oldest entry, ArrowDown after ArrowUp restores the cursor and shows the entry it returns to, or empties the buffer when it returns to "not browsing" |
| TerminalInput.UpPressesReach | src/components/TerminalInput.tsx:72-75 | k ArrowUp presses go k entries back and stop at the oldest one |
| TerminalInput.StaysAtOldest | src/components/TerminalInput.tsx:72 | at the oldest entry, further ArrowUp presses change nothing |
| TerminalInput.RecallAfterEnter | src/components/TerminalInput.tsx:37-38 | after a command, the i-th ArrowUp recalls the i-th newest command, and every later press recalls the oldest |
| TerminalInput.TerminalInput.constructor | src/components/TerminalInput.tsx:24-25 | a new input line has an empty buffer of width one |
| TerminalInput.TerminalInput.Change | src/components/TerminalInput.tsx:99 | the buffer takes the typed value, and the width follows it |
| TerminalInput.TerminalInput.Enter | src/components/TerminalInput.tsx:31-69 | a blank line appends one bare prompt and changes nothing else. Otherwise: the trimmed command is appended to history; the cursor becomes the new history length; the command's effect is performed; `[Prompt(command), reply]` is appended after what the command did to the outputs. The buffer empties either way |
| TerminalInput.TerminalInput.ArrowUp | src/components/TerminalInput.tsx:70-76 | the cursor and buffer become `Older` of the old ones, and the cursor stays in range |
| TerminalInput.TerminalInput.ArrowDown | src/components/TerminalInput.tsx:77-87 | the cursor and buffer become `Newer` of the old ones, and the cursor stays in range |
| Variants.LowerOfLowerCase | src/utils/commandHandler.ts:34 | lower-casing a string without capitals changes nothing |
| Variants.SplitKeepsLowerCase | src/utils/commandHandler.ts:21 | splitting a string without capitals gives pieces without capitals |
| Variants.SameWords | src/utils/commandHandler.ts:20-21 | for every typed line, both terminals dispatch on the same words |
| Variants.SameThemeSelection | src/utils/commandHandler.ts:33-39 | for every typed line, both terminals end on the same theme |
| Variants.UpCorresponds | src/App.tsx:113-119 | under the cursor correspondence, ArrowUp keeps the cursors matched; the buffers differ exactly at the oldest entry when the buffer holds something other than that entry |
| Variants.DownCorresponds | src/App.tsx:120-130 | under the cursor correspondence, ArrowDown keeps the cursors matched; the buffers differ exactly when not browsing with a non-empty buffer |
| Variants.SameRecall | src/App.tsx:96-97 | after a command, any number of ArrowUp presses recall the same line in both terminals |
| Variants.NoHistoryNoRecall | src/App.tsx:115 | with no history, ArrowUp changes nothing in either terminal |
| Variants.RecallExample | src/App.tsx:113-119 | after `about` and `skills`, three ArrowUp presses show `skills`, `about`, `about` in both terminals |
| Variants.AppRecallSession | src/App.tsx:90-131 | the same sequence, run through the monolithic terminal's key handlers |
| Variants.AppEnterLine | src/App.tsx:91-97 | entering a trimmed, non-blank line records it and stops browsing |
| Variants.AppUpThrice | src/App.tsx:113-119 | three ArrowUp presses after `about` and `skills` show `skills`, `about`, `about` |
| Variants.SplitRecallSession | src/components/TerminalInput.tsx:31-87 | the same sequence, run through the split terminal's key handlers |
| Variants.SplitEnterLine | src/components/TerminalInput.tsx:32-38 | entering a trimmed, non-blank line records it and stops browsing |
| Variants.SplitUpThrice | src/components/TerminalInput.tsx:70-76 | three ArrowUp presses after `about` and `skills` show `skills`, `about`, `about` |
| Variants.ClearSession | src/App.tsx:386-388 | after `clear`, the monolithic terminal shows nothing, and the split terminal shows only the `clear` prompt and an empty fragment |

## Left out

- Text.ToLower: only the ASCII letters A–Z are lower-cased. JavaScript's `toLowerCase` also maps non-ASCII letters, which the model does not.
- The markup and styling of every block are left out: the colour settings, Tailwind classes, the biography texts, the prompt parts imported from `../constants`, and `Date.now()` keys. Blocks are abstract tags, and the split terminal's reply keeps only its message text (`CommandHandler.Message`).
- The browser effects of `src/App.tsx` are left out: focus and scroll-to-bottom, `document.body.className`, and `toggleFullscreen`. None of them affects the session state.
- `src/components/MatrixRain.tsx` (canvas animation, timers, randomness), `src/components/IpCommand.tsx` (a network request) and `src/components/TerminalOutput.tsx` (presentation only) are not part of this model.
- The parent that mounts `TerminalInput` is not part of this model. Its initial state is a `Host`, and the cursor range 0..|history| is a precondition of the key methods.
- The width effect (`useEffect` on `input`) is applied at the end of each handler, not as a separate render step.
- React's re-rendering is not modelled. Queued updates are applied in call order, and the handlers read the state of the same render; interleavings with other events between renders are left out.
- `rootClasses` stands for the root element's class list, which as a `DOMTokenList` never holds a class twice. `Host` accepts any sequence, so lemmas such as `SwitchClassesExact` also cover lists with repeated classes, which the page cannot produce; no lemma depends on the list being free of repeats.
- `localStorage` is modelled as a map. The root element's class list is modelled as a sequence with the `DOMTokenList` remove and add rules. Other pages and tabs sharing the same storage are left out.
