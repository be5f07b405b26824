# IMK input-mode switcher — a Dafny model

IMK is a Windows tray application. It switches the input method between latin
("English") and native ("Chinese") conversion mode as the user moves focus
between applications, following a per-application policy. This project models
the four places where its logic lives and proves properties of that model:

- **Focus stabilisation** (`focus_monitor.dfy`, module `FocusMonitor`). This is
  `WindowMonitor` in the source. A raw activation starts a confirmation
  attempt. The attempt polls the foreground window until one handle has stayed
  in front for 500 ms. It then deduplicates that handle against the last
  confirmed one, waits a settle delay of 150 ms and raises the
  confirmed-change event, unless a newer activation cancelled it.
  - The asynchronous handler is split at its await points into the step
    methods `Activate`, `Confirm`, `Settle` and `Finish` of the class
    `WindowMonitor`. A caller chooses how attempts, `Stop` and `Dispose`
    interleave.
  - A ghost `phase` per attempt and a ghost `raisedBy` per event carry the
    invariant `Valid()`. It says that only the newest live attempt can still
    raise an event, and that events appear in attempt order.
  - The polling loop is the method `Stabilise`. It works over a sequence of
    clock-stamped samples and is proved against the declarative
    `ConfirmsAt`/`RunStart` definition of "stable".
- **Verified mode switch** (`ime_controller.dfy`, module `ImeControl`). This is
  `IMEController` in the source. `IsEnglishMode` is a bit test with a default
  when there is no IME window. `Retry` is the bounded verify-and-retry loop.
  `SetToEnglish` and `SetToChinese` are built on `Retry`. The operating system
  is an oracle `os: nat -> Attempt`: attempt `i` sends to the IME window
  `os(i).target` and then observes `os(i).after`.
- **Mode decision and policy load** (`input_mode_manager.dfy`, module
  `ModeManager`). This is `InputModeManager` in the source. `Decide` is the
  if/else-if decision of `Handle`. The class `InputModeManager` holds the two
  sets, fills them in `LoadConfig` with loops, and issues the switch in
  `Handle`.
- **Comma-list configuration text** (`app_input_settings.dfy`, module
  `Settings`). These are the non-UI parts of `AppInputSettingsUI`:
  - splitting a box on `,` with empty entries removed and entries trimmed;
  - joining a list with `", "` when the dialog opens;
  - the picklist of running applications.
- **Shared vocabulary** (`platform.dfy`, module `Platform`): handles (`nat`, with
  0 for `IntPtr.Zero`), `Option`, and executable names (`WinApi.GetProcessName`
  appends ".exe" to the process name).

Behaviours of the code worth knowing, which the model reproduces:

- An executable listed under both "ENG" and "CHINESE" is switched to the
  opposite of the current mode on every confirmation, because `Handle` tests
  the latin list only when the current mode is not latin, and the native list
  only when it is latin (`ListedTwiceToggles`, `DecisionSettles`).
- Two consecutive confirmed-change events can carry the same handle.
  `_lastConfirmedHwnd` is recorded before the settle delay, so an attempt
  cancelled during that delay records a handle without reporting it.
  `RepeatedEventScenario` raises `[x, x]`. `LostFocusScenario` records a focus
  change that is never reported.
- `SetToChinese` reports success at once when the foreground window has no
  IME window, because `IsEnglishMode` answers false there
  (`ChineseWithoutImeWindow`). `SetToEnglish` can never succeed in that
  situation (`EnglishNeedsImeWindow`).

## Model

| member | source | states |
|---|---|---|
| Platform.ExeName | WinApi.cs:31 | the executable name ends in ".exe" and is exactly the process name followed by that suffix |
| Platform.GetProcessName | WinApi.cs:26-37 | the name is absent exactly when the process lookup fails; otherwise it ends in ".exe" and starts with the process name |
| FocusMonitor.RunStart | WindowMonitor.cs:94-99 | the poll where the stability timer of poll i was last restarted: every poll from there to i saw the same handle, and the poll before it saw a different one |
| FocusMonitor.ConfirmsAt | WindowMonitor.cs:76-91 | the confirmation test of a poll; a confirming poll is not the first one and continues the run of the poll before it, so the loop's stability timer was not restarted at it |
| FocusMonitor.Stabilise | WindowMonitor.cs:63-100 | the loop returns Zero exactly when no poll confirms; otherwise it returns the first confirming poll and its handle, so a zero handle is never confirmed |
| FocusMonitor.ConfirmedHandleWasStable | WindowMonitor.cs:76-91 | a confirmed handle is non-zero, every poll since the last timer restart returned it, and at least 500 ms passed since that restart |
| FocusMonitor.StableRunIsConfirmed | WindowMonitor.cs:83-91 | conversely, on a monotone clock, a non-zero handle returned by every poll over at least 500 ms is confirmed by the last of those polls |
| FocusMonitor.WindowMonitor.constructor | WindowMonitor.cs:11-13 | a new monitor has no confirmed handle, no token source and no events, and satisfies the invariant |
| FocusMonitor.WindowMonitor.Activate | WindowMonitor.cs:48-52 | the previous token is cancelled and a fresh, uncancelled one is installed for the new attempt; nothing else changes |
| FocusMonitor.WindowMonitor.Confirm | WindowMonitor.cs:103-114 | notify holds exactly when the token is live, the handle is non-zero and it differs from the last confirmed handle; that is exactly when the last confirmed handle is reassigned, and it becomes the stable handle |
| FocusMonitor.WindowMonitor.Settle | WindowMonitor.cs:116-130 | the event is raised, appending the handle, exactly when the token was not cancelled during the delay; only the newest attempt can raise it |
| FocusMonitor.WindowMonitor.Finish | WindowMonitor.cs:150-158 | the token source is cleared only when it is still this attempt's own; a newer attempt's source is left untouched |
| FocusMonitor.WindowMonitor.Stop | WindowMonitor.cs:35-42 | the in-flight token is cancelled; afterwards every attempt is cancelled or finished, so none can raise an event |
| FocusMonitor.WindowMonitor.Dispose | WindowMonitor.cs:162-169 | the in-flight token is cancelled and the token source becomes null; no attempt can raise an event afterwards |
| FocusMonitor.RunAttempt | WindowMonitor.cs:45-159 | an uninterrupted attempt stops at the first confirming poll (Zero when none confirms); it raises an event exactly when that handle is non-zero and differs from the last confirmed handle, appending exactly that handle, which becomes the last confirmed handle; otherwise events and the last confirmed handle are unchanged; no token source is left |
| FocusMonitor.Abandon | WindowMonitor.cs:103-158 | a superseded attempt raises nothing, keeps the last confirmed handle, and leaves a newer token source alone |
| FocusMonitor.BurstScenario | WindowMonitor.cs:48-130 | four activations in quick succession followed by a stable h1 raise exactly one event, for h1 |
| FocusMonitor.LostFocusScenario | WindowMonitor.cs:107-130 | an attempt cancelled during its settle delay records x without an event; a later confirmation of x then raises nothing |
| FocusMonitor.ReportUninterrupted | WindowMonitor.cs:103-158 | a live attempt confirming a new handle records it, raises exactly one event for it and clears its token source |
| FocusMonitor.RepeatedEventScenario | WindowMonitor.cs:107-130 | x, then a y recorded but cancelled, then x again raise the events [x, x]: consecutive events can repeat a handle |
| ImeControl.IsEnglishMode | IMEController.cs:22-33 | latin mode holds exactly when there is an IME window and bit 0 (native) of its conversion mode is clear; without an IME window the answer is false |
| ImeControl.FirstSuccess | IMEController.cs:59-71 | the least call index below retry whose call succeeds, if any; every earlier call fails, and None means every call fails |
| ImeControl.Retry | IMEController.cs:59-71 | succeeds exactly when some call below retry succeeds, after exactly first-success + 1 calls (no further calls); otherwise fails after exactly retry calls (none for a negative retry) |
| ImeControl.SetToEnglish | IMEController.cs:35-45 | through the helpers EnglishReached (the success test of line 43) and SetModeSends (the messages of lines 39-41): between 1 and 50 messages, each setting mode 0 on the IME window re-resolved for that attempt; success exactly when some attempt ends in latin mode, the last one; on failure exactly 50 attempts, none in latin mode |
| ImeControl.SetToChinese | IMEController.cs:47-57 | through the helpers ChineseReached (the success test of line 55) and SetModeSends: the same with mode 1 and "not latin" as the success test |
| ImeControl.EnglishConverges | IMEController.cs:61-66 | if the first k < 50 attempts are ignored and attempt k is applied, the switch to latin succeeds at attempt k, after exactly k + 1 calls |
| ImeControl.ChineseConverges | IMEController.cs:61-66 | the same for the switch to native |
| ImeControl.ChineseWithoutImeWindow | IMEController.cs:26-27 | without an IME window after the first attempt, the switch to native reports success at once |
| ImeControl.EnglishNeedsImeWindow | IMEController.cs:26-27 | without an IME window the switch to latin can never succeed |
| ModeManager.Decide | InputModeManager.cs:26-38 | no switch for an unresolved process; a switch to latin only when not latin and listed for latin; a switch to native only when latin and listed for native |
| ModeManager.NoSwitchWhenSatisfied | InputModeManager.cs:29-38 | no switch when the application is in neither set, or when the mode already matches its set |
| ModeManager.SwitchExactlyOnDisagreement | InputModeManager.cs:29-38 | a switch happens exactly when the mode disagrees with a set the application is in, and it flips the mode |
| ModeManager.ListedTwiceToggles | InputModeManager.cs:29-38 | an executable in both sets is always switched to the opposite of the current mode |
| ModeManager.DecisionSettles | InputModeManager.cs:29-38 | once the chosen switch has taken effect, deciding again asks for nothing, except for an executable in both sets |
| ModeManager.ExactMembership | InputModeManager.cs:10-11 | for every name and both sets, a switch is asked for exactly when the name itself is listed, and a one-name list matches only that very string: no case folding or other normalisation |
| ModeManager.InputModeManager.constructor | InputModeManager.cs:13-16 | the two sets are the entries under "ENG" and "CHINESE" |
| ModeManager.InputModeManager.LoadConfig | InputModeManager.cs:41-68 | through the helper Entries (GetValueOrDefault at lines 56 and 58): adds every entry under "ENG" to engApps and every entry under "CHINESE" to chnApps; a missing key adds nothing, and so does an unreadable file |
| ModeManager.InputModeManager.Handle | InputModeManager.cs:18-39 | the action is the decision for the resolved executable and the current mode; no messages for no action; otherwise one retry run of 1 to 50 messages, each setting the mode of that action on the IME window re-resolved for its attempt, where every attempt but the last left the mode unreached and a run shorter than 50 ends with the mode reached |
| Settings.IsWhiteSpace | AppInputSettingsUI.cs:127-128 | the characters TrimEntries cuts (char.IsWhiteSpace); a comma is never one, space, tab, line feed and carriage return always are, and digits, ASCII letters and '.' never are |
| Settings.Pieces | AppInputSettingsUI.cs:127-128 | splitting on ',' gives at least one piece and no piece contains a comma |
| Settings.JoinPieces | AppInputSettingsUI.cs:127-128 | the pieces joined with ',' give back the text, so splitting loses nothing |
| Settings.Trim | AppInputSettingsUI.cs:127-128 | the result has no white space at either end and no comma that was not in the input |
| Settings.TrimIsSlice | AppInputSettingsUI.cs:127-128 | the trimmed text is a slice of the input with only white space cut at either end |
| Settings.TrimOfTrimmed | AppInputSettingsUI.cs:127-128 | trimming a trimmed text changes nothing |
| Settings.TrimLeadingSpace | AppInputSettingsUI.cs:127-128 | a leading space does not change the trimmed text |
| Settings.Keep | AppInputSettingsUI.cs:127-128 | a piece yields at most one entry, and a comma-free piece yields only valid entries |
| Settings.Clean | AppInputSettingsUI.cs:127-128 | removing empty entries after trimming yields no more entries than pieces, and only valid entries from comma-free pieces |
| Settings.ParseList | AppInputSettingsUI.cs:127-128 | every saved entry is non-empty, has no white space at either end and contains no comma |
| Settings.PiecesWithoutSeparator | AppInputSettingsUI.cs:127-128 | a text without a comma is one piece |
| Settings.PiecesAppend | AppInputSettingsUI.cs:127-128 | the pieces of two texts joined by a comma are the pieces of each, in order |
| Settings.CleanAppend | AppInputSettingsUI.cs:127-128 | cleaning distributes over concatenation, keeping order and duplicates |
| Settings.ParseListAppend | AppInputSettingsUI.cs:127-133 | the list saved from two texts joined by a comma is the two lists one after the other, so order and duplicates are kept |
| Settings.ParseListLeadingSpace | AppInputSettingsUI.cs:127-128 | a leading space does not change the saved list |
| Settings.ParseListSingle | AppInputSettingsUI.cs:127-128 | a valid entry alone in a box is saved as itself |
| Settings.Join | AppInputSettingsUI.cs:116-118 | the elements in order with the separator between neighbours: an empty list gives the empty text; otherwise the text starts with the first element and is as long as all elements plus one separator per gap |
| Settings.FormatList | AppInputSettingsUI.cs:116-118 | a list is shown with ", " between entries: an empty list as an empty box, otherwise starting with its first entry, two characters longer per gap than its entries together |
| Settings.FormatListCons | AppInputSettingsUI.cs:116-118 | a shown list of two or more entries is the first entry, a comma, a space and the rest shown |
| Settings.ParseFormatRoundTrip | AppInputSettingsUI.cs:116-128 | for non-empty, trimmed, comma-free entries, saving the shown text yields the original list |
| Settings.OnSave | AppInputSettingsUI.cs:127-134 | the saved dictionary has exactly the keys "ENG" and "CHINESE", each holding the list parsed from its box, all entries valid |
| Settings.LoadExistingConfig | AppInputSettingsUI.cs:113-119 | each box whose key is present shows its list joined with ", "; a box whose key is absent, and every box when the file is unreadable, keeps its text |
| Settings.ReopenAndSave | AppInputSettingsUI.cs:113-134 | opening the dialog on a saved configuration and saving unchanged writes the same two lists |
| Settings.SaveThenLoad | AppInputSettingsUI.cs:130-134 | the keys written are the keys the mode manager reads: a saved dialog loads as the sets of the parsed entries |
| Settings.WindowedExeNames | AppInputSettingsUI.cs:95-97 | exactly the executable names of the processes with a main window, each ending in ".exe" |
| Settings.Distinct | AppInputSettingsUI.cs:98 | the same elements, each at most once |
| Settings.Insert | AppInputSettingsUI.cs:99 | inserting into a sorted list keeps it sorted and adds exactly that element |
| Settings.SortBy | AppInputSettingsUI.cs:99 | the result is sorted and a permutation of the input |
| Settings.AppList | AppInputSettingsUI.cs:95-100 | the picklist is sorted, has no duplicates, and holds exactly the names, ending in ".exe", of processes with a main window |

## Left out

- Concurrency is not modelled: `Task.Run`, `async void`, the lock and `CancellationTokenSource`. Each step method is atomic, and a caller picks an interleaving. Two steps also take in code outside the lock: `Confirm` makes the unlocked token test at WindowMonitor.cs:103 atomic with the locked section at 107-114, and `Settle` makes the token test at line 122 atomic with raising the event at line 128. Every interleaving of the source inside those spans gives the outcome of some order of the model's steps, but `Settle`'s "only the newest attempt can raise" holds in the order of steps only: in real time, an older attempt that passed the test at line 122 can raise its event after a newer activation has started. Thread safety is not claimed.
- FocusMonitor.WindowMonitor.Activate: reads the token source it installed atomically. The unlocked re-read of `_confirmationCts` at WindowMonitor.cs:55 is not modelled, so a token source replaced between the lock and that read is not captured.
- Delays and clocks are not modelled as waiting. `Task.Delay` becomes step boundaries: the sample times for the polls, and the `Settle` step for the settle delay. `DateTime.UtcNow` becomes the integer `timeMs` of each sample.
- FocusMonitor.Stabilise: an `OperationCanceledException` or any other exception from a delay is modelled as the sample sequence ending before a confirmation. After that the attempt only runs its cleanup.
- The activation's window handle is not a parameter, because the handler never uses it.
- The shell hook (window registration and message dispatch), `Program`, the tray application and the form layout are not part of this model. Activations are whatever calls a client makes.
- Window titles and class names are informational, so they are left out.
- File and JSON I/O are not modelled. A configuration is an already parsed `map<string, seq<string>>`. `None` stands for a missing file, a read or parse failure, or a null document.
- The sleeps inside `Retry` and the switch attempts are not modelled.
- The return values of `SetToEnglish`/`SetToChinese` are modelled, but `Handle` ignores them, as the source does. The result of the set-mode `SendMessage` is not observed in the source and is not modelled.
- ImeControl.IsEnglishMode: the conversion mode is taken as a 32-bit value. `IntPtr.ToInt32` throwing on a 64-bit result outside the `int` range is not modelled.
- Settings.SortBy: the culture order of `OrderBy` is a parameter that must be a total order. A comparer that ranks two distinct names as equal, where `OrderBy`'s stability would decide their order, is not modelled.
- The process list comes in as a parameter, a sequence of (process name, main window handle) pairs.
- Console output, message boxes, the finalizer and `GC.SuppressFinalize` have no effect on the modelled state, so they are left out.
