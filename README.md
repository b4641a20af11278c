# M.A.R.A. console and admin-page logic, modelled in Dafny

This project models the logic of the oldmartijntje.nl portfolio site that is more than
rendering. Each part below has its own module.

- **Console command table** (`ConsoleApplications`). The virtual file catalog, the clearance
  rules, the `ConsoleLine` record with its draw and emit hooks, and the `ls`, `cd`, `help`,
  `run` and `info` handlers. The handlers work on a `ConsoleHost` object holding the loaded
  files, the current path, the line list and the overlay.
- **Console screen** (`ConsoleEditor`). The start-up state, the skip-animation `onInit`, the key
  handler over the input line (editing keys, Control chords, the snapshot in local storage),
  `onEnter`, greedy word wrapping and the loading-bar draw step.
- **Event bus** (`EventsSystem`). Subscriptions with increasing ids, and `emit`, `on`, `off` and
  `unsubscribe`.
- **Key-sequence matcher** (`KonamiDebug`). The two ten-key counters of the debug listener.
- **Saved search filters** (`SearchFilterStorage`). One storage entry holding a dictionary from
  page type to filter text.
- **Admin pages** (`DisplayItemsEditor`, `ProjectDataManager`, `RegistrationCodePage`). Each page
  has its search predicate. The display-item page also edits its list of info pages. The
  project-data page wraps and strips quotes around the attributes JSON.

The admin pages share one search semantics, in `SearchQuery`:

- The filter is lower-cased and split at single spaces.
- Every word must let the item through.
- A word starting with `!` (and longer than the `!` alone) inverts its own test.
- What a word is judged against differs per page. It is passed in as a function from the word
  to a `WordVerdict`.

Shared helpers:

- `Text`: JavaScript's `split`, `join`, `includes`, `substring`, `toLowerCase`, `repeat` and
  number-to-string, over `seq<char>`, plus `LastIndex`, a specification helper (the position of a
  character's last occurrence) used to state what `cd ..` computes.
- `Sequences`: `filter`.
- `Wrappers`: `Option`.
- `ItemDisplayModel`: the display-item record.

Where the source is stateful, the model is a class whose methods are proved against
specification functions. Examples: `ConsoleHost`, `ConsoleApp`, `Events`, `KeyListener`,
`FilterStore` and the three page classes.

Three things that do I/O are passed in as parameters instead:

- `JSON.stringify` of the info pages is a function parameter.
- `JSON.parse` succeeding is a predicate parameter.
- The canvas's `measureText` is a width function.

## Model

| member | source | states |
|---|---|---|
| ConsoleApplications.GetClassifiedLevel | src/models/consoleAppApplications.ts:10-16 | the hint is 1 without a (non-zero) clearance, otherwise min(level + 1, required level) |
| ConsoleApplications.LockMarkMatchesAccess | src/models/consoleAppApplications.ts:60-83 | for a signed-in caller with a level, `ls` shows the lock glyph exactly on the entries `cd`/`run` refuse |
| ConsoleApplications.FilesInNarrows | src/models/consoleAppApplications.ts:55-58 | after `ls` narrows the catalog to a directory, the entries all belong there, listing it again shows the same entries, and every other directory looks empty |
| ConsoleApplications.ConsoleLine.Duplicate | src/models/consoleAppApplications.ts:36-41 | a duplicate resets the display text to the original text, keeps type, data and draw hook, drops the emit hook, and stays well formed exactly when the original is |
| ConsoleApplications.DuplicateResets | src/models/consoleAppApplications.ts:36-41 | duplicating is idempotent, ignores what drawing did to the text, and maps a fresh line to itself |
| ConsoleApplications.SplitEmissionRebuildsText | src/models/consoleAppApplications.ts:114-118 | the `run` emit hook appends at least one output line; no line holds a break, and the lines joined with `'\n'` are the emitting text (nothing in the program calls this hook; see "## Left out") |
| ConsoleApplications.RowHasNoBreak | src/models/consoleAppApplications.ts:60-65 | an `ls` row holds no line break when the file name holds none |
| ConsoleApplications.ListingLines | src/models/consoleAppApplications.ts:59-67 | the `ls` text, split at line breaks, is the current path followed by one row per entry in catalog order, with the "last" glyph only on the final row |
| ConsoleApplications.RowsSnoc | src/models/consoleAppApplications.ts:59-66 | each loop iteration of `ls` adds exactly one row |
| ConsoleApplications.ParentPathShape | src/models/consoleAppApplications.ts:72-75 | `cd ..` keeps the path up to and including its last `'/'`, gives `"/"` for a path without one, and always ends in `'/'` |
| ConsoleApplications.ParentOfTwoPieces | src/models/consoleAppApplications.ts:72-75 | from a path with a single `'/'`, `cd ..` drops the piece after it |
| ConsoleApplications.ParentPathExamples | src/models/consoleAppApplications.ts:72-75 | `C:/desktop` goes up to `C:/`, and `C:/` is its own parent |
| ConsoleApplications.FindByName | src/models/consoleAppApplications.ts:104 | `find` returns nothing exactly when no entry has the name, and otherwise the first entry with that name |
| ConsoleApplications.HelpLines | src/models/consoleAppApplications.ts:93-99 | the `help` text, split at line breaks, is the header followed by one `" - name"` row per command in table order |
| ConsoleApplications.HelpStep | src/models/consoleAppApplications.ts:96-98 | each loop iteration of `help` adds one line break and one row without a break |
| ConsoleApplications.HelpRowsSnoc | src/models/consoleAppApplications.ts:96-98 | each loop iteration of `help` adds exactly one row |
| ConsoleApplications.HelpListsEveryCommand | src/models/consoleAppApplications.ts:52-125 | `help` lists `ls`, `cd`, `help`, `run`, `info`, in that order |
| ConsoleApplications.ConsoleHost.constructor | src/models/consoleAppApplications.ts:52-53 | the host starts with the given catalog and path, no lines and no overlay |
| ConsoleApplications.ConsoleHost.Ls | src/models/consoleAppApplications.ts:53-68 | `ls` narrows the loaded files to the current directory and appends exactly one line: the path followed by the listing of those files |
| ConsoleApplications.ConsoleHost.Cd | src/models/consoleAppApplications.ts:69-92 | `cd ..` moves to the parent without output; `cd p` enters the first matching folder when the caller may, and otherwise appends exactly one CLASSIFIED or "No such directory" line and keeps the path |
| ConsoleApplications.ConsoleHost.Help | src/models/consoleAppApplications.ts:93-100 | `help` appends exactly one line: the header and the command list |
| ConsoleApplications.ConsoleHost.Run | src/models/consoleAppApplications.ts:101-124 | `run p` has four outcomes. A missing file or a folder gives one "No such file" line. A locked file gives one CLASSIFIED line. An `exe` file fills the overlay and shows the modal without output. Any other file gives one content line with the split-on-emit hook. |
| ConsoleApplications.ConsoleHost.Info | src/models/consoleAppApplications.ts:125-145 | `info` appends its three fixed lines and changes nothing else |
| ConsoleEditor.FloorDivAtLeast | src/pages/easterEggs/ConsoleApp.tsx:103-106 | the rounded-down quotient reaches k exactly when the dividend reaches k times the divisor |
| ConsoleEditor.Cells | src/pages/easterEggs/ConsoleApp.tsx:103-105 | the filled-cell count is at most ten, and is ten exactly when progress has reached the goal |
| ConsoleEditor.BarTextHasTenCells | src/pages/easterEggs/ConsoleApp.tsx:103-107 | a running bar shows `[`, exactly ten cells that are `=` up to the filled count and `·` after it, then `]` |
| ConsoleEditor.DrawStep | src/pages/easterEggs/ConsoleApp.tsx:102-115 | one frame keeps the line well formed and keeps its original text, type and emit hook; firing happens only on a loading bar, which then becomes static |
| ConsoleEditor.StaticLineStays | src/pages/easterEggs/ConsoleApp.tsx:22-24 | a line with the default draw hook never changes and never fires |
| ConsoleEditor.LoadingBarStep | src/pages/easterEggs/ConsoleApp.tsx:102-108 | below the goal, one frame shows the bar for the current progress and advances progress by one, silently |
| ConsoleEditor.LoadingBarRuns | src/pages/easterEggs/ConsoleApp.tsx:102-108 | until the goal is passed, frame j shows the bar for the progress before it, and progress has advanced by j |
| ConsoleEditor.LoadingBarCompletes | src/pages/easterEggs/ConsoleApp.tsx:109-114 | a bar completes on frame goal - progress + 1; it shows `[==========] Complete!`, has fired exactly once, and stays that way on later frames |
| ConsoleEditor.LoadingBarLifecycle | src/pages/easterEggs/ConsoleApp.tsx:98-115 | a fresh bar with goal n draws n silent frames, then completes with one emit on frame n + 1 and never fires again |
| ConsoleEditor.WrapText | src/pages/easterEggs/ConsoleApp.tsx:202-220 | the wrap loop computes the greedy fold `Wrapped` |
| ConsoleEditor.WrapFoldFits | src/pages/easterEggs/ConsoleApp.tsx:207-217 | the fold yields at least one more line, and every line measures within the width or is a single word |
| ConsoleEditor.WrappedLinesFit | src/pages/easterEggs/ConsoleApp.tsx:202-220 | `wrapText` yields at least one line, and every line fits or is one word |
| ConsoleEditor.WrapFoldJoin | src/pages/easterEggs/ConsoleApp.tsx:207-217 | for non-empty words, the fold's lines joined with spaces are the started text followed by the remaining words |
| ConsoleEditor.WrappedRejoins | src/pages/easterEggs/ConsoleApp.tsx:202-220 | for text without leading, trailing or doubled spaces, the wrapped lines joined with spaces are the text |
| ConsoleEditor.WrapDropsLeadingSpace | src/pages/easterEggs/ConsoleApp.tsx:208-214 | as written, `" a"` wraps to `["a"]`, which does not rejoin to `" a"` |
| ConsoleEditor.WrapTextKeepingSpaces | src/pages/easterEggs/ConsoleApp.tsx:202-220 | the corrected wrap loop computes `WrappedKeepingSpaces` |
| ConsoleEditor.KeepingSpacesJoin | src/pages/easterEggs/ConsoleApp.tsx:207-217 | the corrected fold's lines joined with spaces are the started text followed by the remaining words, empty words included |
| ConsoleEditor.KeepingSpacesFits | src/pages/easterEggs/ConsoleApp.tsx:207-217 | the corrected fold yields at least one more line, each fitting or a single word |
| ConsoleEditor.WrappedKeepingSpacesRejoins | src/pages/easterEggs/ConsoleApp.tsx:202-220 | for every text, the corrected wrap yields at least one line, each fitting or one word, and the lines joined with spaces are the text |
| ConsoleEditor.Restored | src/pages/easterEggs/ConsoleApp.tsx:367-369 | a restored line saves back to exactly what was saved, and has the default hooks |
| ConsoleEditor.RestoreLines | src/pages/easterEggs/ConsoleApp.tsx:365-370 | the restore loop makes one new line per saved line, in order, each saving back to its record, with default hooks |
| ConsoleEditor.KeyDown | src/pages/easterEggs/ConsoleApp.tsx:313-383 | a handled key keeps the cursor within the line; the key throws exactly on Ctrl+r with nothing saved; only Ctrl+r moves the path |
| ConsoleEditor.TypeInserts | src/pages/easterEggs/ConsoleApp.tsx:377-381 | a one-character key without Control goes into the line at the cursor, keeping the text on both sides; the cursor moves past it and nothing else changes |
| ConsoleEditor.TypeThenBackspace | src/pages/easterEggs/ConsoleApp.tsx:325-381 | typing a character and then Backspace gives the editor back unchanged |
| ConsoleEditor.TypeLeftDelete | src/pages/easterEggs/ConsoleApp.tsx:331-381 | typing a character, ArrowLeft, then Delete gives the editor back unchanged |
| ConsoleEditor.ArrowsMoveCursor | src/pages/easterEggs/ConsoleApp.tsx:331-336 | the arrows move the cursor by one within the line and never change the text |
| ConsoleEditor.EnterTwice | src/pages/easterEggs/ConsoleApp.tsx:314-324 | Enter empties the line and cursor, appends two lines for a non-empty line and none for an empty one, and a second Enter changes nothing |
| ConsoleEditor.ShiftEnterBreaksAtEnd | src/pages/easterEggs/ConsoleApp.tsx:315-318 | Shift+Enter adds an empty last `'\n'` piece at the end of the line, whatever the cursor, and moves the cursor by one |
| ConsoleEditor.CopyCutsLine | src/pages/easterEggs/ConsoleApp.tsx:345-350 | Ctrl+c puts the line on the clipboard, appends it as one input line, and clears line and cursor |
| ConsoleEditor.SaveThenRestore | src/pages/easterEggs/ConsoleApp.tsx:358-373 | Ctrl+s then Ctrl+r gives back the line, the cursor, the path (the start path for an empty one) and each line's texts, type and data, with default hooks |
| ConsoleEditor.RestoreIdempotent | src/pages/easterEggs/ConsoleApp.tsx:361-373 | a second Ctrl+r right after a restore changes nothing |
| ConsoleEditor.ConsoleApp.constructor | src/pages/easterEggs/ConsoleApp.tsx:57-71 | the screen starts empty at `C:/desktop`, cursor 0, cursor visible, no keys held, input off |
| ConsoleEditor.ConsoleApp.OnInit | src/pages/easterEggs/ConsoleApp.tsx:73-84 | with the animation skipped, the lines become exactly the two welcome lines and input is turned on |
| ConsoleEditor.ConsoleApp.HandleKeyUp | src/pages/easterEggs/ConsoleApp.tsx:299-302 | the key is no longer held, and nothing else changes |
| ConsoleEditor.ConsoleApp.HandleKeyDown | src/pages/easterEggs/ConsoleApp.tsx:304-389 | before input is allowed, a key changes nothing. After that, the key is recorded as held and recent, and the editor moves as `KeyDown` says (unchanged when it throws). |
| ConsoleEditor.ConsoleApp.EditKey | src/pages/easterEggs/ConsoleApp.tsx:313-382 | the editing keys and uncontrolled keys move the editor as `KeyDown` says |
| ConsoleEditor.ConsoleApp.ControlKey | src/pages/easterEggs/ConsoleApp.tsx:343-376 | the Control chords move the editor as `KeyDown` says, or throw exactly when it does |
| ConsoleEditor.ConsoleApp.OnEnter | src/pages/easterEggs/ConsoleApp.tsx:189-194 | `onEnter` appends the command as an input line and then its echo, and clears the line |
| ConsoleEditor.ConsoleApp.DrawLine | src/pages/easterEggs/ConsoleApp.tsx:102-115 | one frame replaces only the drawn line, by `DrawStep`, and reports whether it fired |
| EventsSystem.FilterKeepsIdsIncreasing | src/services/EventsSystem.ts:35-41 | removing subscriptions keeps the ids strictly increasing |
| EventsSystem.FilterKeepsIdsIssued | src/services/EventsSystem.ts:35-41 | removing subscriptions keeps every id between 1 and the counter |
| EventsSystem.SubscriptionJoinsItsEvent | src/services/EventsSystem.ts:15-31 | a new subscription is called last by its own event and by no other |
| EventsSystem.OffRemovesExactly | src/services/EventsSystem.ts:35-37 | `off(id)` keeps exactly the entries with another id, and is a no-op for an unknown id |
| EventsSystem.UnsubscribeRemovesExactly | src/services/EventsSystem.ts:39-41 | `unsubscribe(caller)` keeps exactly the other callers' entries, changes nothing for an unknown caller, and is idempotent |
| EventsSystem.Events.constructor | src/services/EventsSystem.ts:11-13 | the bus starts with no subscriptions and counter 0 |
| EventsSystem.Events.Emit | src/services/EventsSystem.ts:15-21 | `emit` calls the callbacks registered for the event, each once, in registration order |
| EventsSystem.Events.On | src/services/EventsSystem.ts:23-33 | `on` returns the counter plus one, appends exactly one entry with it, and the id is larger than every earlier id |
| EventsSystem.Events.Off | src/services/EventsSystem.ts:35-37 | `off` filters out that id and leaves the counter alone |
| EventsSystem.Events.Unsubscribe | src/services/EventsSystem.ts:39-41 | `unsubscribe` filters out that caller and leaves the counter alone |
| KonamiDebug.Advance | src/helpers/konamiDebug.ts:85-93 | a matching key advances the counter, completing the sequence fires and resets it, and any other key resets it; the counter stays below the length |
| KonamiDebug.Index | src/helpers/konamiDebug.ts:84-103 | the counter after any keys stays below the sequence length |
| KonamiDebug.IndexIsTypedPrefix | src/helpers/konamiDebug.ts:85-93 | the counter equals a length for which the last keys typed spell that much of the sequence |
| KonamiDebug.IndexSnoc | src/helpers/konamiDebug.ts:85-93 | one more key moves the counter by one step |
| KonamiDebug.FiredMeansSequenceTyped | src/helpers/konamiDebug.ts:85-93 | a counter fires only when the last keys are exactly its whole sequence |
| KonamiDebug.StaysResetOnOtherKey | src/helpers/konamiDebug.ts:91-93 | a reset counter stays reset on any key but the first of the sequence |
| KonamiDebug.NoFireWithoutFirstKey | src/helpers/konamiDebug.ts:91-93 | after a reset, keys none of which is the first key never fire |
| KonamiDebug.ExtraFirstKeyMissesSequence | src/helpers/konamiDebug.ts:4-94 | ArrowUp followed by the whole sequence ends with the sequence, yet export never fires |
| KonamiDebug.ExportAndImportNeverTogether | src/helpers/konamiDebug.ts:4-104 | export and import never fire on the same key |
| KonamiDebug.Tick | src/helpers/konamiDebug.ts:85-93 | one counter's statements compute `Advance` |
| KonamiDebug.KeyListener.constructor | src/helpers/konamiDebug.ts:29-30 | both counters start at 0 with no keys seen |
| KonamiDebug.KeyListener.HandleKeyDown | src/helpers/konamiDebug.ts:84-103 | after each key both counters are below ten; export fires exactly when `Fired` says, and then the last ten keys are the export sequence and its counter is 0; the same holds for import |
| SearchFilterStorage.Lookup | src/helpers/localstorage.ts:1-11 | a missing entry or missing type reads as `""`; otherwise the stored text |
| SearchFilterStorage.PutThenLookup | src/helpers/localstorage.ts:14-26 | after storing, the type reads back as the value and every other type reads as before |
| SearchFilterStorage.PutIntoMissing | src/helpers/localstorage.ts:21-24 | storing into a missing entry creates a dictionary with that one type |
| SearchFilterStorage.PutIdempotent | src/helpers/localstorage.ts:14-26 | storing the same value twice is storing it once |
| SearchFilterStorage.FilterStore.constructor | src/helpers/localstorage.ts:1-11 | the store holds the given entry |
| SearchFilterStorage.FilterStore.SetSearchFilters | src/helpers/localstorage.ts:14-26 | the entry becomes the updated dictionary, the type reads back as the value, and other types read as before |
| SearchQuery.LowerKeepsSpaces | src/pages/BackendDataEditorPages/displayItemsEditorPage.tsx:83-84 | lower-casing keeps the spaces where they were and creates none |
| SearchQuery.QueryWordsConcat | src/pages/BackendDataEditorPages/displayItemsEditorPage.tsx:83-84 | the words of two filters joined by a space are the words of the first, then of the second |
| SearchQuery.MatchesConjunction | src/pages/BackendDataEditorPages/displayItemsEditorPage.tsx:82-125 | two filters joined by a space match exactly the items both match |
| SearchQuery.MoreWordsNeverWiden | src/pages/BackendDataEditorPages/projectDataManagerPage.tsx:79-106 | adding a word never turns a rejection into a match |
| SearchQuery.BareBangSkipped | src/pages/BackendDataEditorPages/registrationCodePage.tsx:69-72 | a lone `!` word changes nothing |
| SearchQuery.SingleWord | src/pages/BackendDataEditorPages/registrationCodePage.tsx:66-85 | a single word is judged by the page's test on its lower case; with `!` in front the test is inverted; an outright rejection stays a rejection |
| DisplayItemsEditor.VisibilityWordFacts | src/pages/BackendDataEditorPages/displayItemsEditorPage.tsx:96-103 | `hidden` and `shown` are each a piece of themselves, not of each other, and already lower case |
| DisplayItemsEditor.NegatedHiddenRejectsAll | src/pages/BackendDataEditorPages/displayItemsEditorPage.tsx:88-103 | `!hidden` rejects every item |
| DisplayItemsEditor.VisibilityWordsSelect | src/pages/BackendDataEditorPages/displayItemsEditorPage.tsx:96-103 | `hidden` selects exactly the hidden items and `shown` exactly the others |
| DisplayItemsEditor.BlankFilterMatchesAll | src/pages/BackendDataEditorPages/displayItemsEditorPage.tsx:84-100 | a filter of one space matches every item, since the empty word is a visibility word that fits |
| DisplayItemsEditor.OrdinaryWordMatchesMentions | src/pages/BackendDataEditorPages/displayItemsEditorPage.tsx:105-123 | any other word matches exactly the items that mention it in a flag word or a field, and with `!` exactly the others |
| DisplayItemsEditor.EditedPageFields | src/pages/BackendDataEditorPages/displayItemsEditorPage.tsx:52 | an edit sets the named field, keeps the other, and a second edit of the same field wins |
| DisplayItemsEditor.MoveSwapsNeighbours | src/pages/BackendDataEditorPages/displayItemsEditorPage.tsx:41-48 | a move swaps the two pages, keeps length, every other page and the multiset of pages, and the opposite move undoes it |
| DisplayItemsEditor.MoveOffTheEndIsNoOp | src/pages/BackendDataEditorPages/displayItemsEditorPage.tsx:44 | moving the first page up or the last page down changes nothing |
| DisplayItemsEditor.Removed | src/pages/BackendDataEditorPages/displayItemsEditorPage.tsx:254-257 | removing a valid position deletes exactly that page and keeps the order; any other index changes nothing |
| DisplayItemsEditor.RemovedTakesOnePage | src/pages/BackendDataEditorPages/displayItemsEditorPage.tsx:254-257 | removal takes exactly that page out of the multiset of pages |
| DisplayItemsEditor.RemoveUndoesAdd | src/pages/BackendDataEditorPages/displayItemsEditorPage.tsx:247-257 | removing the page just added gives the list back |
| DisplayItemsEditor.PreviewableCheck | src/pages/BackendDataEditorPages/displayItemsEditorPage.tsx:128-140 | there is something to preview exactly unless the only page is blank |
| DisplayItemsEditor.EmptyEditingCheck | src/pages/BackendDataEditorPages/displayItemsEditorPage.tsx:142-164 | the form is empty exactly when the title is empty, the three optional fields are present and empty, there is one blank page and there are no tags |
| DisplayItemsEditor.FormChecks | src/pages/BackendDataEditorPages/displayItemsEditorPage.tsx:128-164 | an empty form has nothing to preview; the opening form is empty; the form a submit resets to is not empty, because it lacks the optional fields |
| DisplayItemsEditor.AddedPageIsPreviewable | src/pages/BackendDataEditorPages/displayItemsEditorPage.tsx:128-140 | after adding a page there is always something to preview |
| DisplayItemsEditor.JudgeWord | src/pages/BackendDataEditorPages/displayItemsEditorPage.tsx:96-117 | the branches on one word compute the page's verdict `ItemVerdict` |
| DisplayItemsEditor.DisplayItemsManager.constructor | src/pages/BackendDataEditorPages/displayItemsEditorPage.tsx:16-32 | the page opens with the initial form, no preview, and the filter saved under `projects` |
| DisplayItemsEditor.DisplayItemsManager.OnSearchChange | src/pages/BackendDataEditorPages/displayItemsEditorPage.tsx:532-536 | the typed filter is stored under `projects` and used at once |
| DisplayItemsEditor.DisplayItemsManager.DoesThisProjectMatchSearch | src/pages/BackendDataEditorPages/displayItemsEditorPage.tsx:78-126 | the word loop returns exactly `Matches` of the filter for this item, and true for an empty filter |
| DisplayItemsEditor.DisplayItemsManager.MoveInfoPage | src/pages/BackendDataEditorPages/displayItemsEditorPage.tsx:41-48 | the form's pages become `Moved`, and the preview shows the new form; an out-of-range move changes nothing |
| DisplayItemsEditor.DisplayItemsManager.HandleInfoPageChange | src/pages/BackendDataEditorPages/displayItemsEditorPage.tsx:50-55 | only the named field of the given page changes, and the preview shows the new form |
| DisplayItemsEditor.DisplayItemsManager.AddInfoPage | src/pages/BackendDataEditorPages/displayItemsEditorPage.tsx:247-252 | one blank page is appended |
| DisplayItemsEditor.DisplayItemsManager.RemoveInfoPage | src/pages/BackendDataEditorPages/displayItemsEditorPage.tsx:254-257 | the form's pages become `Removed` |
| ProjectDataManager.Wrap | src/pages/BackendDataEditorPages/projectDataManagerPage.tsx:56 | the wrapped text is the JSON text with one double quote on each side |
| ProjectDataManager.StripQuotes | src/pages/BackendDataEditorPages/projectDataManagerPage.tsx:127-129 | a text of two or more characters with quotes at both ends loses them; any other text is unchanged |
| ProjectDataManager.StripUndoesWrap | src/pages/BackendDataEditorPages/projectDataManagerPage.tsx:127-129 | stripping undoes the wrapping done when records are fetched |
| ProjectDataManager.StripRemovesAtMostOnePair | src/pages/BackendDataEditorPages/projectDataManagerPage.tsx:188-190 | at most one pair of quotes goes; `"` alone stays as it is and `""` becomes empty |
| ProjectDataManager.FetchedAttributesValid | src/pages/BackendDataEditorPages/projectDataManagerPage.tsx:187-198 | `isValidData` of a fetched record is whether its JSON parses, and of the opening form whether `{}` parses |
| ProjectDataManager.EmptyEditingCheck | src/pages/BackendDataEditorPages/projectDataManagerPage.tsx:109-119 | the form is empty exactly when the id is empty and the attributes are `"{}"` |
| ProjectDataManager.InitialFormIsEmpty | src/pages/BackendDataEditorPages/projectDataManagerPage.tsx:109-119 | the opening form is empty at any level, and any typed id makes it non-empty |
| ProjectDataManager.WordMatchesMentions | src/pages/BackendDataEditorPages/projectDataManagerPage.tsx:93-104 | a word matches exactly the records whose id, attributes or level mention it, and with `!` exactly the others |
| ProjectDataManager.DigitsAreLower | src/pages/BackendDataEditorPages/projectDataManagerPage.tsx:95 | a text of digits is its own lower case |
| ProjectDataManager.LevelSearchFindsRecord | src/pages/BackendDataEditorPages/projectDataManagerPage.tsx:95 | searching a record's non-negative level finds it |
| ProjectDataManager.BlankFilterMatchesAll | src/pages/BackendDataEditorPages/projectDataManagerPage.tsx:81-98 | a filter of one space matches every record |
| ProjectDataManager.SearchFilterNotRestored | src/pages/BackendDataEditorPages/projectDataManagerPage.tsx:312-316 | as written, the filter typed on this page is never read back by it, and it overwrites the display-item page's filter |
| ProjectDataManager.SearchFilterRestored | src/pages/BackendDataEditorPages/projectDataManagerPage.tsx:312-316 | with the page's own key, the filter reads back and the display-item page keeps its filter |
| ProjectDataManager.ProjectDataManagerPage.constructor | src/pages/BackendDataEditorPages/projectDataManagerPage.tsx:18-25 | the page opens with the initial form and the filter saved under `projectData` |
| ProjectDataManager.ProjectDataManagerPage.OnSearchChange | src/pages/BackendDataEditorPages/projectDataManagerPage.tsx:312-316 | as written, the typed filter is used at once but stored under `projects`: the page's own saved filter (`projectData`) is unchanged and the display-item page's filter becomes the typed text |
| ProjectDataManager.ProjectDataManagerPage.ClearForm | src/pages/BackendDataEditorPages/projectDataManagerPage.tsx:265-271 | Clear resets the form to the initial, empty form |
| ProjectDataManager.ProjectDataManagerPage.SubmittedAttributes | src/pages/BackendDataEditorPages/projectDataManagerPage.tsx:127-130 | the text handed to `JSON.parse` is the stripped attributes, and `{}` for the initial form |
| ProjectDataManager.ProjectDataManagerPage.DoesThisProjectMatchSearch | src/pages/BackendDataEditorPages/projectDataManagerPage.tsx:75-107 | the word loop returns exactly `Matches` of the filter for this record, and true for an empty filter |
| RegistrationCodePage.WordMatchesMentions | src/pages/BackendDataEditorPages/registrationCodePage.tsx:77-85 | a word matches exactly the codes whose level, note, role or code mention it, and with `!` exactly the others |
| RegistrationCodePage.CodeSearchFindsCode | src/pages/BackendDataEditorPages/registrationCodePage.tsx:77 | typing a code finds it, and `!` in front hides it |
| RegistrationCodePage.AbsentFieldsNeverMatch | src/pages/BackendDataEditorPages/registrationCodePage.tsx:77 | an absent note and role never match, so only the level and the code can |
| RegistrationCodePage.BlankFilterMatchesAll | src/pages/BackendDataEditorPages/registrationCodePage.tsx:65-77 | a filter of one space matches every code, through its code |
| RegistrationCodePage.RegistrationCodeManager.constructor | src/pages/BackendDataEditorPages/registrationCodePage.tsx:25 | the page opens with the filter saved under `registrationCode` |
| RegistrationCodePage.RegistrationCodeManager.OnSearchChange | src/pages/BackendDataEditorPages/registrationCodePage.tsx:209-213 | the typed filter is stored under `registrationCode` and used at once |
| RegistrationCodePage.RegistrationCodeManager.DoesThisProjectMatchSearch | src/pages/BackendDataEditorPages/registrationCodePage.tsx:59-89 | the word loop returns exactly `Matches` of the filter for this code, and true for an empty filter |
| Text.SplitPartsLackSep | src/models/consoleAppApplications.ts:116 | no piece of a split holds the separator |
| Text.JoinSplit | src/models/consoleAppApplications.ts:73-75 | joining the pieces of a split with the same separator gives the text back |
| Text.SplitConcat | src/pages/BackendDataEditorPages/displayItemsEditorPage.tsx:84 | splitting at a separator splits the two sides independently |
| Text.LastIndex | src/models/consoleAppApplications.ts:73-75 | a specification helper for `cd ..`, which itself uses `split`, `pop` and `join`: the position of the last `'/'`, -1 exactly when there is none, otherwise a position holding it with none after it |
| Text.Substring | src/pages/BackendDataEditorPages/projectDataManagerPage.tsx:127-129 | `substring` takes the slice between its bounds, swapping them when they cross |
| Text.NatToStringValue | src/pages/BackendDataEditorPages/projectDataManagerPage.tsx:95 | the decimal digits of a number read back as that number |

## Left out

- Canvas drawing is not modelled: the CRT effect, the cursor pixel position, line truncation,
  resizing, the cursor-blink timer and animation-frame scheduling. This is floating-point
  rendering and timers.
- The start-up animation chain of `onInit` (the banner, the date line and the five chained
  loading bars) is not modelled. Only the skip-animation path is; the draw step of one bar is
  modelled on its own.
- ConsoleEditor.BarText: the percentage after the cells uses whole-number division. The source
  uses float division followed by `Math.floor`, which can round differently for some goals.
  Only the ten cells are proved.
- Ctrl+v (clipboard paste) is not modelled, because it is asynchronous. Its key press changes
  nothing at the time; Ctrl+c's clipboard write is recorded as a field.
- The snapshot's JSON encoding is not modelled. A foreign or corrupt `console` entry is not
  modelled either: the stored snapshot is one the editor itself saved, so its cursor lies
  within its line.
- JSON encoding of the filter dictionary is not modelled, nor a stored entry that parses to
  `null` or holds non-text values.
- `JSON.stringify` of the info pages and `JSON.parse` are function parameters. `measureText` is a
  function from text to a real width, and the canvas width is a real. The browser's font metrics
  are not modelled.
- ProjectDataManager.IsValidData: has no postcondition of its own. What it computes is stated
  by FetchedAttributesValid.
- `toLowerCase` maps only the ASCII letters A-Z. Non-ASCII case folding is not modelled.
- ConsoleEditor.KeyDown: strings are sequences of Unicode scalar values, not of UTF-16 code
  units as in JavaScript. A key outside the Basic Multilingual Plane (such as an emoji, length 2
  in JavaScript) is rejected by the source's `e.key.length === 1` test but inserted by the
  model. Once a line holds such a character, the source's Backspace, Delete and arrows act on
  half of a surrogate pair, while the model acts on whole characters.
- ConsoleEditor.ConsoleApp.EditKey: moves the editor as `KeyDown` says, so it carries the same
  difference: characters are Unicode scalar values, not UTF-16 code units.
- Clearance levels are integers. A non-integer level in the stored profile is not modelled.
- ConsoleApplications.ConsoleLine.Duplicate: `duplicate()` shares, not copies, `functionData` and `onDraw`.
  The model uses values, so a later change to one line's data is not seen by its duplicate.
- DisplayItemsEditor.DisplayItemsManager.HandleInfoPageChange: the source writes the page into
  the list it shares with the current form. The model gives the form a new list, so the
  aliasing is not captured.
- The tree and lock glyphs of `ls` are stored mis-decoded in the source. They are three distinct
  constants here. The long `info` banner and blurb are placeholder texts.
- The event bus does not model `callback.bind(caller)` or the value passed to the callbacks.
  Callbacks are opaque handles, and `emit` returns the handles it would call.
- The export and import actions of the debug listener are not modelled (downloading, the file
  picker, `FileReader`). They are returned as two flags.
- Network handlers and the pages' fetch, submit and delete calls are not modelled.
- ConsoleApplications.SplitEmissionRebuildsText: states what the emit hook that `run` attaches
  would do if it were called with its own line. Nothing in the program calls it: the only call
  to `onEmit` is a completing loading bar's, which passes no line. So `run` output is never
  re-split in practice.
- The two duplicate `ConsoleLine` classes (the command table's and the console screen's) are
  modelled once.

## Findings

| source | as written | input that shows it | evidently intended | confidence | as-written member | corrected member |
|---|---|---|---|---|---|---|
| src/pages/easterEggs/ConsoleApp.tsx:208-214 | an empty `currentLine` doubles as "no line started yet", so empty words are swallowed while no line is started: those from leading spaces, and one that a wrap makes the new line (a doubled space inside a started line is kept) | `" a"` wraps to `["a"]`, and joining with spaces gives `"a"` | lines joined with spaces give back the text | not executed | ConsoleEditor.WrapDropsLeadingSpace | ConsoleEditor.WrappedKeepingSpacesRejoins |
| src/pages/BackendDataEditorPages/projectDataManagerPage.tsx:314 | the search box stores the filter under `projects`, but the page reads its filter from `projectData` (line 25) | type `abc` with no saved filters: the page, opened again, shows an empty filter, and the display-item page now shows `abc` | store under `projectData` | not executed | ProjectDataManager.SearchFilterNotRestored | ProjectDataManager.SearchFilterRestored |
