# MacroPad, modelled in Dafny

MacroPad is a nine-key USB keypad with a desktop companion application. The keypad
firmware turns button edges into key presses and releases. The desktop side has several parts:

- a serial manager that finds and owns the connection to the keypad;
- a connection supervisor that retries with exponential backoff and starts one listener for the device's lines;
- a binding store that maps "Button n pressed" names to shell commands;
- a window that edits bindings, pushes them to the device as `SET<n><command>\n`, and animates its status;
- a command-line log analyzer, with a small window that builds its arguments.

This project models that core and proves its properties:

| file | module | models |
|---|---|---|
| `wrappers.dfy` | `Wrappers` | `Option` (Python's `None`, Rust's `Option`) |
| `text.dfy` | `Text` | strip, split, `int()`/`str()`, ASCII lower-casing, substring search, UTF-8 encoding |
| `events.dfy` | `Events` | the trace of observable effects: log calls, status and toggle callbacks, sleeps, listener starts, actions run, processes spawned |
| `keys.dfy` | `Keys` | the button names "Button n pressed" and the number parsed back out of them |
| `serial.dfy` | `Serial` | `SerialManager` over an abstract port (`Port`) |
| `macros.dfy` | `Macros` | `MacroManager`, the binding store, with the configuration file as an `Option<map>` |
| `dispatch.dfy` | `Dispatch` | the first-match dispatch of an inbound line shared by both listeners |
| `backoff.dfy` | `Backoff` | the retry policy: 2, doubled after each failure, capped at 60, reset on success |
| `connection.dfy` | `Supervisor` | `ConnectionManager`: the supervision loop, the listener guard, the listener, `stop` |
| `panel.dfy` | `Panel` | the button panel both windows keep: `buttons`, `button_states`, `createWidgets`, `toggleButtons` |
| `editing.dfy` | `Editing` | `editAction`: the "EMPTY" sentinel, the button number, the `SET` push |
| `gui.dfy` | `Gui` | `MacroPadApp`, the packaged window: its own supervision loop, status animation, listener, `runAction`, quit |
| `ui_controller.dfy` | `Controller` | `UIController`: panel, edit and quit |
| `log_analyzer.dfy` | `LogAnalyzer` | `classifyLine`, `filterLine`, the worker counters, argument parsing, `main` |
| `analyzer_window.dfy` | `AnalyzerWindow` | `runRustAnalysis`: the argument vector and the early return |
| `firmware.dfy` | `Firmware` | the sketch's `setup` and `loop` over the two global arrays |

Each background loop (supervision, listener, status animation, firmware `loop`) is modelled as a method for one iteration or for a given run of iterations. The loop's effects are appended to an `events` trace instead of being performed.

Several things the code cannot see are inputs:
- the ports and whether each one opens;
- the lines waiting on a port;
- the dialog's answer;
- a spawn failure;
- whether the analyzer executable exists;
- the pin readings.

Dictionary iteration order is a parameter, constrained only to list every key once, so dispatch is proved for every order.

Where the repository's design notes and the code differ, the model follows the code:
- `listening` is set once and never cleared (`ConnectionManager.py:33,76`). A reconnect therefore starts no second listener. The one listener keeps running on `running`, not on the connection.
- `loadActions` returns whatever the file holds, and raises on a malformed file (`GUI/MacroManager.py:30-32`). It falls back to the defaults only when the file is absent. A present file is `Some(map)`, an absent one `None`.

## Model

| member | source | states |
|---|---|---|
| `Serial.Port.Open` | MacroPadApp/logic/SerialManager.py:51-53 | a port that opens is open and holds the lines buffered on it, with nothing written |
| `Serial.Port.FlushInput` | MacroPadApp/logic/SerialManager.py:53 | drops every waiting line and changes nothing else |
| `Serial.Port.ReadLine` | MacroPadApp/logic/SerialManager.py:118 | the oldest waiting line is consumed unless the read raises, in which case nothing is consumed |
| `Serial.Port.Write` | MacroPadApp/logic/SerialManager.py:100 | the data is recorded as written exactly once unless the write raises |
| `Serial.Port.Close` | MacroPadApp/logic/SerialManager.py:136 | the port ends closed unless closing raises |
| `Serial.SerialManager.constructor` | MacroPadApp/logic/SerialManager.py:20-24 | baud rate 9600, no handle, no port, not connected, so `isConnected()` is false and `getPort()` is None |
| `Serial.SerialManager.IsConnected` | MacroPadApp/logic/SerialManager.py:73-74 | connected means a handle is held, it reports itself open, and the flag is set (definition; used by every serial contract) |
| `Serial.SerialManager.GetPort` | MacroPadApp/logic/SerialManager.py:85-86 | the recorded port name (definition; `AutoConnect` and `Close` state its value) |
| `Serial.SerialManager.NextLine` | MacroPadApp/logic/SerialManager.py:115-124 | the line `readLine` yields from a state: the stripped oldest waiting line when connected, input waiting and the read not raising; None otherwise (definition; `ReadLine` is proved against it) |
| `Serial.FirstOpening` | MacroPadApp/logic/SerialManager.py:49-58 | the index of the first port in list order that opens: every earlier port fails; None exactly when none opens |
| `Serial.SerialManager.AutoConnect` | MacroPadApp/logic/SerialManager.py:47-62 | succeeds iff some port opens. On success, the first such port becomes the fresh, flushed, open handle, with its name and `connected` set. On failure (including an empty list) all three fields are unchanged |
| `Serial.SerialManager.Write` | MacroPadApp/logic/SerialManager.py:97-104 | nothing happens unless connected. When connected the bytes are written exactly once, or, if the port raises, the connection is closed (corrected: `close` in place of the missing `disconnect`) |
| `Serial.SerialManager.WriteAsWritten` | MacroPadApp/logic/SerialManager.py:97-104 | as written: a port that raises on write ends in the AttributeError of `self.disconnect()` with the fields unchanged |
| `Serial.SerialManager.ReadLine` | MacroPadApp/logic/SerialManager.py:115-124 | None unless connected with input waiting. Otherwise the stripped oldest line, consumed. A read that raises closes the connection and yields None (corrected as for `Write`) |
| `Serial.SerialManager.ReadLineAsWritten` | MacroPadApp/logic/SerialManager.py:115-124 | as written: a read that raises ends in the AttributeError of `self.disconnect()` with nothing changed |
| `Serial.SerialManager.Close` | MacroPadApp/logic/SerialManager.py:133-142 | a no-op without a handle. Otherwise the handle is closed and all three fields are cleared, so `isConnected()` is false and `getPort()` is None. If closing raises, all three are kept. A second call after a clearing one is a no-op |
| `Macros.DefaultActions` | GUI/MacroManager.py:34 | the default map has exactly the nine button names as keys, all bound to "" |
| `Macros.LoadActions` | GUI/MacroManager.py:29-34 | the file's content when it exists, the default bindings otherwise (definition; `LoadWithoutFile` and `SaveActions` state its properties) |
| `Macros.LoadWithoutFile` | GUI/MacroManager.py:29-34 | without a file there are exactly nine bindings, "Button 1 pressed" to "Button 9 pressed", all empty, and no other key |
| `Macros.MacroManager.constructor` | GUI/MacroManager.py:18-20 | the bindings are what `loadActions` reads from the file |
| `Macros.MacroManager.SaveActions` | GUI/MacroManager.py:43-45 | the file holds the whole map afterwards, and loading it gives the map back (round trip) |
| `Macros.MacroManager.GetAction` | GUI/MacroManager.py:56-57 | the command bound to a name, "" for a name without a binding (definition; `SetActions` states how it changes) |
| `Macros.MacroManager.SetActions` | GUI/MacroManager.py:70-73 | the key gets the action and every other key keeps its value. The key set becomes the old keys plus that key, and the file holds the updated map |
| `Macros.MacroManager.GetAllActions` | GUI/MacroManager.py:82-83 | the current bindings (definition; the listeners dispatch over them) |
| `Keys.KeyName` | MacroPadApp/gui/MacroPadGUI.py:88 | "Button i pressed" (definition; `KeyNameInjective` and `ButtonNumberOfKeyName` state its properties) |
| `Keys.ButtonNumber` | MacroPadApp/gui/MacroPadGUI.py:243 | `int(name.split()[1])`, None where Python raises (definition; `ButtonNumberOfKeyName` and `KeyNamesNumbered` state its properties) |
| `Keys.ButtonNumberOfKeyName` | MacroPadApp/gui/MacroPadGUI.py:243 | `int(name.split()[1])` of "Button i pressed" is i |
| `Keys.KeyNameInjective` | MacroPadApp/gui/MacroPadGUI.py:88 | different numbers give different button names |
| `Keys.KeyNamesUpTo` | GUI/MacroManager.py:34 | the names of buttons 1..n are n distinct names |
| `Keys.NineKeyNames` | GUI/MacroManager.py:34 | there are exactly nine button names |
| `Keys.KeyNamesNumbered` | MacroPadApp/gui/UIController.py:84 | the number parsed from any of the nine names is in 1..9 and names that button |
| `Text.Strip` | MacroPadApp/logic/SerialManager.py:118 | the result is the input with its leading and trailing whitespace removed: a slice `s[i..j]` where everything before `i` and after `j` is whitespace and neither end of the slice is. Whitespace is Python's `str.isspace` set (ASCII 9–13 and 28–31, space, NEL, no-break space, the Unicode space separators) |
| `Text.StripIdempotent` | MacroPadApp/logic/SerialManager.py:118 | stripping twice equals stripping once |
| `Text.WordsOfThree` | MacroPadApp/gui/MacroPadGUI.py:243 | `split()` of three space-separated words gives exactly those words |
| `Text.ParseIntToString` | MacroPadApp/gui/MacroPadGUI.py:243 | `int(str(n)) == n` for every integer |
| `Text.ContainsIff` | log_analyzer/LogAnalyzer.rs:59 | the substring scan finds `sub` exactly when it occurs at some offset |
| `Text.EncodeAppend` | MacroPadApp/gui/MacroPadGUI.py:246 | UTF-8 encoding of a concatenation is the concatenation of the encodings |
| `Text.EncodeAscii` | MacroPadApp/gui/MacroPadGUI.py:246 | an ASCII string encodes to one byte per character, each its code |
| `Dispatch.Items` | MacroPadApp/logic/ConnectionManager.py:89 | the items of the binding map, one per key, in the given iteration order |
| `Dispatch.FirstMatch` | MacroPadApp/logic/ConnectionManager.py:89-93 | the index of the first binding whose command equals the line, where no earlier one does; None exactly when no binding equals it |
| `Dispatch.FindMatch` | MacroPadApp/logic/ConnectionManager.py:89-93 | the scan with its `break` finds exactly that first match |
| `Dispatch.FirstMatchUnique` | MacroPadApp/logic/ConnectionManager.py:89-93 | a binding equal to the line, with no equal binding before it, is the one chosen |
| `Dispatch.FirstMatchNone` | MacroPadApp/logic/ConnectionManager.py:94-95 | no equal binding means no match (the `for … else` branch) |
| `Dispatch.DispatchRunsAtMostOnce` | MacroPadApp/logic/ConnectionManager.py:88-95 | exactly one action runs when the line is non-empty and some binding equals it, and none otherwise. The command run is the (non-empty) line. With no match, the trace is exactly the one "No action mapped" warning |
| `Dispatch.EmptyBindingNeverFires` | MacroPadApp/logic/ConnectionManager.py:88-91 | an empty binding never runs, whatever the line |
| `Dispatch.MatchIffBound` | MacroPadApp/logic/ConnectionManager.py:89-95 | a match is found iff some key is bound to the line |
| `Dispatch.DispatchOrderIndependent` | MacroPadApp/logic/ConnectionManager.py:89-93 | whether an action runs, and how many, does not depend on the dictionary's iteration order |
| `Backoff.RetryStaysInRange` | MacroPadApp/logic/ConnectionManager.py:44-45 | starting anywhere in [2, 60], the retry interval stays in [2, 60] after any run of passes |
| `Backoff.RetryAfterFailures` | MacroPadApp/logic/ConnectionManager.py:61-62 | after n failures from r the interval is min(r·2ⁿ, 60) |
| `Backoff.FailureSleeps` | MacroPadApp/logic/ConnectionManager.py:61-62 | the k-th of n consecutive failures sleeps min(r·2ᵏ, 60) seconds |
| `Backoff.FirstSevenFailures` | MacroPadApp/logic/ConnectionManager.py:44-62 | from the start, seven failures sleep 2, 4, 8, 16, 32, 60, 60 |
| `Backoff.RetryAfterAppend` | MacroPadApp/logic/ConnectionManager.py:47-64 | the interval after two runs of passes is the second run's interval started from the first's |
| `Backoff.SuccessResets` | MacroPadApp/logic/ConnectionManager.py:56 | after a success the interval is as if the loop had just started, whatever came before |
| `Backoff.PassFacts` | MacroPadApp/logic/ConnectionManager.py:47-64 | one more pass extends the retry interval and the sleeps exactly as the policy prescribes, and keeps the interval in [2, 60] |
| `Supervisor.CycleEvents` | MacroPadApp/logic/ConnectionManager.py:47-64 | the trace of one pass: sleep 2 when connected; on success the attempt log, status, listener start (unless listening) and toggle on; on failure the attempt log, warning, toggle off, status and sleep r (definition; `ConnectionCycle` is proved against it, `CycleEventsSleep`/`CycleEventsStarts` state its properties) |
| `Supervisor.CycleEventsSleep` | MacroPadApp/logic/ConnectionManager.py:61-64 | a pass sleeps 2 s when connected, the current interval on failure, and nothing on success |
| `Supervisor.CycleEventsStarts` | MacroPadApp/logic/ConnectionManager.py:53-55 | a pass starts a listener only on success and only when none is listening |
| `Supervisor.PassKeepsOneListener` | MacroPadApp/logic/ConnectionManager.py:74-76 | with at most one listener started so far, matching `listening`, one more pass keeps it so |
| `Supervisor.ConnectionManager.constructor` | MacroPadApp/logic/ConnectionManager.py:25-34 | not listening, running, stop not requested, nothing recorded |
| `Supervisor.ConnectionManager.StartSerialListener` | MacroPadApp/logic/ConnectionManager.py:73-76 | a listener starts iff none is listening and the device is connected; afterwards `listening` records it |
| `Supervisor.ConnectionManager.ConnectionCycle` | MacroPadApp/logic/ConnectionManager.py:48-64 | one pass of the loop. Already connected: sleep 2, retry interval kept. Connected now: log, status "Connected: port", listener, toggle on, interval 2. Failed: log, warning, toggle off, status "Disconnected", sleep r, interval min(2r, 60). The serial state changes only on success |
| `Supervisor.ConnectionManager.Supervise` | MacroPadApp/logic/ConnectionManager.py:43-64 | for any run of passes unless stopped: the interval is the policy's and stays in [2, 60]; the sleeps are the policy's; at most one listener is ever started |
| `Supervisor.ConnectionManager.ListenerStep` | MacroPadApp/logic/ConnectionManager.py:85-96 | while running: the line `readLine` yields is dispatched to at most one binding, then the step sleeps 0.01 s. The read consumes the oldest waiting line and keeps the connection, or closes it when the read raises; with nothing waiting or no connection the serial state is unchanged. Stopped: nothing changes |
| `Supervisor.ConnectionManager.Stop` | MacroPadApp/logic/ConnectionManager.py:105-107 | clears `running` and sets the stop event, and nothing else |
| `Supervisor.DispatchLine` | MacroPadApp/logic/ConnectionManager.py:88-95 | the listener's scan produces the dispatch trace: the first equal binding runs and is logged, or one warning |
| `Supervisor.NoStartsInListener` | MacroPadApp/logic/ConnectionManager.py:85-96 | the listener never starts a listener |
| `Panel.Cells` | MacroPadApp/gui/MacroPadGUI.py:79-83 | the keypad order has nine cells |
| `Panel.CellAt` | MacroPadApp/gui/MacroPadGUI.py:85-87 | cell 3i+j of the row-by-row walk is `keypad_order[i][j]` |
| `Panel.KeypadPlacesEachOnce` | MacroPadApp/gui/MacroPadGUI.py:79-83 | the keypad order holds each of 1..9 exactly once |
| `Panel.LayoutAt` | MacroPadApp/gui/MacroPadGUI.py:85-88 | the (3i+j)-th name the nested loop registers is "Button `keypad_order[i][j]` pressed" |
| `Panel.LayoutNames` | MacroPadApp/gui/MacroPadGUI.py:85-88 | the loop registers exactly the nine button names |
| `Panel.RegisterPlaced` | MacroPadApp/gui/MacroPadGUI.py:98-99 | after registering the first n names, those names map to the value and other keys keep theirs |
| `Panel.RegisterAll` | MacroPadApp/gui/MacroPadGUI.py:85-99 | the whole loop adds the nine names with the value and keeps every other key |
| `Panel.InitialStates` | MacroPadApp/gui/MacroPadGUI.py:56 | exactly the nine names, all "Disabled" |
| `Panel.ButtonPanel.constructor` | MacroPadApp/gui/MacroPadGUI.py:55-56 | no widgets and the nine "Disabled" states |
| `Panel.ButtonPanel.CreateWidgets` | MacroPadApp/gui/MacroPadGUI.py:78-99 | the nested loop registers each keypad name in order as a disabled button with state "Disabled" |
| `Panel.ButtonPanel.ToggleButtons` | MacroPadApp/gui/MacroPadGUI.py:204-209 | every button gets the new enabled flag and state "Connected"/"Disconnected". No button is added or removed, and states of names without a button are kept |
| `Panel.ButtonPanel.GetButtonStatus` | MacroPadApp/gui/MacroPadGUI.py:218-219 | the button states map (definition; `ToggleButtons` and `SetupPanel` state its values) |
| `Panel.SetupPanel` | MacroPadApp/gui/MacroPadGUI.py:54-61 | after `__init__` and `createWidgets`: exactly the nine buttons, all disabled, and the states still the nine "Disabled" entries |
| `Editing.DisplayedAction` | MacroPadApp/gui/MacroPadGUI.py:231-233 | the dialog never opens empty, and it shows "EMPTY" iff the binding is empty (or literally "EMPTY") |
| `Editing.ActionToSave` | MacroPadApp/gui/MacroPadGUI.py:239-240 | the saved action is empty iff "EMPTY" (or nothing) was entered, and is never "EMPTY"; anything else is kept verbatim |
| `Editing.SentinelRoundTrip` | MacroPadApp/gui/MacroPadGUI.py:232-240 | confirming the dialog unchanged saves the binding it showed ("" for empty) |
| `Editing.SetCommandOfKey` | MacroPadApp/gui/MacroPadGUI.py:243-246 | for a button name the push is "SET", its one digit 1..9, the action and "\n", and its bytes are 'S','E','T', the digit, the action's UTF-8 bytes and a newline |
| `Editing.EditAction` | MacroPadApp/gui/MacroPadGUI.py:230-246 | shows the displayed action. A cancelled dialog changes and sends nothing. Otherwise the binding is set (and saved) to the action to save; the SET message is written only while connected; a name without a number ends in the `int()` error |
| `Controller.UIController.constructor` | MacroPadApp/gui/UIController.py:9-19 | keeps both managers; no widgets yet, the nine "Disabled" states |
| `Controller.UIController.CreateWidgets` | MacroPadApp/gui/UIController.py:21-43 | registers the nine keypad buttons, disabled, with state "Disabled" |
| `Controller.UIController.ToggleButtons` | MacroPadApp/gui/UIController.py:61-67 | every button gets the flag and its state "Connected"/"Disconnected"; keys unchanged |
| `Controller.UIController.EditAction` | MacroPadApp/gui/UIController.py:69-87 | the same edit as the packaged window: sentinel both ways, cancelled dialog stores nothing, SET push only while connected |
| `Controller.UIController.QuitApplication` | MacroPadApp/gui/UIController.py:89-94 | logs the quit; closes the connection only if connected; a disconnected manager is untouched |
| `Gui.CycleEvents` | MacroPadApp/gui/MacroPadGUI.py:136-153 | the window's trace of one pass: like the supervisor's, with the button toggling kept in the panel state instead of the trace (definition; `Gui.MacroPadApp.ConnectionCycle` is proved against it) |
| `Gui.CycleEventsSleep` | MacroPadApp/gui/MacroPadGUI.py:146-153 | the packaged window's pass sleeps what the backoff policy prescribes |
| `Gui.CycleEventsStarts` | MacroPadApp/gui/MacroPadGUI.py:143 | its pass starts a listener only on success and only when none is listening |
| `Gui.PassKeepsOneListener` | MacroPadApp/gui/MacroPadGUI.py:162-165 | one more pass keeps at most one listener, matching `listening` |
| `Gui.RunActionEvents` | MacroPadApp/gui/MacroPadGUI.py:257-262 | the command is spawned iff the spawn does not fail, and only that command is spawned |
| `Gui.RunActionSpawns` | MacroPadApp/gui/MacroPadGUI.py:257-262 | `runAction` spawns exactly one process, or none when the spawn fails (the error is logged, not raised) |
| `Gui.SpawnsAsDispatched` | MacroPadApp/gui/MacroPadGUI.py:271-282 | the window's listener spawns a process exactly when the shared dispatch runs an action (and the spawn does not fail), and it spawns the line itself |
| `Gui.NoStartsInListener` | MacroPadApp/gui/MacroPadGUI.py:271-282 | the window's listener never starts a listener |
| `Gui.Dots` | MacroPadApp/gui/MacroPadGUI.py:178 | `"." * n` has n characters, all dots |
| `Gui.ConnectingTextAt` | MacroPadApp/gui/MacroPadGUI.py:178 | for dots 0, 1, 2 the status is "Connecting." / "Connecting.." / "Connecting..." |
| `Gui.AnimationShowsDots` | MacroPadApp/gui/MacroPadGUI.py:174-181 | every status the animation shows is one of the three texts |
| `Gui.AnimationWhileDisconnected` | MacroPadApp/gui/MacroPadGUI.py:174-181 | while disconnected, pass k shows "Connecting" with ((start + k) mod 3) + 1 dots and then sleeps 0.5 s |
| `Gui.MacroPadApp.constructor` | MacroPadApp/gui/MacroPadGUI.py:33-69 | fresh managers, disconnected, bindings loaded, the nine disabled buttons with "Disabled" states, not listening, running |
| `Gui.MacroPadApp.StartSerialListener` | MacroPadApp/gui/MacroPadGUI.py:162-165 | a listener starts iff none is listening and the device is connected |
| `Gui.MacroPadApp.ConnectionCycle` | MacroPadApp/gui/MacroPadGUI.py:136-153 | one pass (corrected: `getPort()` in place of `get_port()`). Already connected: sleep 2. Success: logs, status "Connected: port", listener, buttons enabled, interval 2. Failure: logs, buttons disabled, "Disconnected", sleep r, interval min(2r, 60) |
| `Gui.MacroPadApp.OnConnected` | MacroPadApp/gui/MacroPadGUI.py:141-145 | the success branch: its log, status and listener start, then all buttons enabled |
| `Gui.MacroPadApp.OnFailed` | MacroPadApp/gui/MacroPadGUI.py:147-151 | the failure branch: warning, buttons disabled, "Disconnected", sleep r |
| `Gui.MacroPadApp.ConnectionCycleAsWritten` | MacroPadApp/gui/MacroPadGUI.py:136-153 | as written: every successful connect ends in the AttributeError of `get_port()`. The device is then left connected with buttons still disabled and no listener |
| `Gui.MacroPadApp.Supervise` | MacroPadApp/gui/MacroPadGUI.py:132-153 | for any run of passes: interval kept in [2, 60], the policy's sleeps, at most one listener |
| `Gui.MacroPadApp.AnimateStatus` | MacroPadApp/gui/MacroPadGUI.py:174-181 | while running, the status trace of the dot cycle; nothing when stopped |
| `Gui.MacroPadApp.ListenerStep` | MacroPadApp/gui/MacroPadGUI.py:271-282 | while running: the line `readLine` yields runs the first equal binding through `runAction`, then the step sleeps 0.01 s. The read consumes the oldest waiting line and keeps the connection, or closes it when the read raises; with nothing waiting or no connection the serial state is unchanged. Stopped: nothing changes |
| `Gui.MacroPadApp.QuitApplication` | MacroPadApp/gui/MacroPadGUI.py:291-297 | logs the quit and sets the stop event; the serial manager is not touched |
| `Gui.RunAction` | MacroPadApp/gui/MacroPadGUI.py:257-262 | spawns and logs "Running command: …", or logs "Failed to run command …" when the spawn raises |
| `Gui.DispatchLine` | MacroPadApp/gui/MacroPadGUI.py:274-281 | the scan with `runAction` produces the window's dispatch trace |
| `LogAnalyzer.ClassifyLine` | log_analyzer/LogAnalyzer.rs:27-37 | Info iff the line starts with "INFO", Warn iff "WARN", Error iff "ERROR", Other iff none of them |
| `LogAnalyzer.ClassifyByPrefix` | log_analyzer/LogAnalyzer.rs:27-37 | any line beginning with a level's name has that level, whatever follows |
| `LogAnalyzer.FilterLine` | log_analyzer/LogAnalyzer.rs:52-68 | a line passes when it has the requested level, contains the date text, and contains the keyword ignoring case, each test skipped when its filter is absent (definition; `FilterLooser` and `KeywordIgnoresCase` state its properties) |
| `LogAnalyzer.FilterLooser` | log_analyzer/LogAnalyzer.rs:52-68 | with no filters every line passes; dropping a filter never rejects a passing line; an empty date or keyword filter passes like no filter |
| `LogAnalyzer.LowerForgetsCase` | log_analyzer/LogAnalyzer.rs:64 | lower-casing is idempotent and erases upper-casing |
| `LogAnalyzer.KeywordIgnoresCase` | log_analyzer/LogAnalyzer.rs:63-66 | the keyword filter selects the same lines whatever the case of the keyword or of the line |
| `LogAnalyzer.Filtered` | log_analyzer/LogAnalyzer.rs:136-143 | the lines kept are exactly the input lines that pass the filter, never more lines than the input |
| `LogAnalyzer.FilteredLooser` | log_analyzer/LogAnalyzer.rs:68 | dropping filters keeps every line kept before (as a sub-multiset) |
| `LogAnalyzer.Tally` | log_analyzer/LogAnalyzer.rs:86-95 | the workers' counters over a run of lines, one line at a time (definition; `TallyCounts`, `TallyAppend` and `TallyPermutation` state its properties, `Worker` is proved against it) |
| `LogAnalyzer.TallyCounts` | log_analyzer/LogAnalyzer.rs:87-95 | each counter is the number of lines of its level; the total is the number of lines and equals info + warn + error + the Other lines, so info + warn + error ≤ total |
| `LogAnalyzer.TallyAppend` | log_analyzer/LogAnalyzer.rs:87-95 | counting two batches adds their counts, so the workers' shares add up |
| `LogAnalyzer.TallyPermutation` | log_analyzer/LogAnalyzer.rs:87-95 | any rearrangement of the lines gives the same counters, so the workers' order does not matter |
| `LogAnalyzer.Worker` | log_analyzer/LogAnalyzer.rs:86-96 | the loop's counters are the fold of the lines |
| `LogAnalyzer.ParseType` | log_analyzer/LogAnalyzer.rs:103-108 | lower-cased "info"/"warn"/"error" give that level, anything else no filter, never Other |
| `LogAnalyzer.ParseTypeIgnoresCase` | log_analyzer/LogAnalyzer.rs:103 | the level argument is recognised in any case |
| `LogAnalyzer.ParseTypeOfLevels` | log_analyzer/LogAnalyzer.rs:103-108 | "INFO", "WARN" and "ERROR" select their levels |
| `LogAnalyzer.ParseArgs` | log_analyzer/LogAnalyzer.rs:102-110 | level from argument 1, date from 2, keyword from 3, by position, each absent when its argument is |
| `LogAnalyzer.Analyze` | log_analyzer/LogAnalyzer.rs:112-155 | no summary when the file cannot be opened. Otherwise the printed lines are the passing lines in order, `total_lines` is their number, and the counters are their tally, with the processed total equal to `total_lines` |
| `AnalyzerWindow.CommandShape` | MacroPadApp/gui/LogAnalyzerWindow.py:71-77 | the command starts with the executable. It has 1 + 2·(filled fields) entries, with flags in the order type, date, keyword, each directly followed by its own non-empty value |
| `AnalyzerWindow.BuildCommand` | MacroPadApp/gui/LogAnalyzerWindow.py:71-77 | the successive extends build exactly that command |
| `AnalyzerWindow.JoinSpaces` | MacroPadApp/gui/LogAnalyzerWindow.py:81 | `' '.join(cmd)`: the words with one space between neighbours (definition; used in the logged command line) |
| `AnalyzerWindow.RunRustAnalysis` | MacroPadApp/gui/LogAnalyzerWindow.py:59-84 | a missing executable logs the error and runs nothing. Otherwise the command is handed to the runner: exit 0 logs the command line, a non-zero exit (`CalledProcessError`) logs the failure, and an `OSError` on start escapes the method with nothing logged |
| `AnalyzerWindow.FlagsMisparsed` | MacroPadApp/gui/LogAnalyzerWindow.py:72-73 | as written on both sides: when a level is entered, the analyzer reads "--type" as its level (no filter) and the level as its date filter |
| `AnalyzerWindow.KeywordOnlyMisparsed` | MacroPadApp/gui/LogAnalyzerWindow.py:76-77 | as written on both sides: with only a keyword entered, the analyzer reads "--keyword" as its level (no filter), the keyword as its date filter, and applies no keyword filter |
| `AnalyzerWindow.ErrorLevelMisparsed` | log_analyzer/LogAnalyzer.rs:103-110 | the window's "ERROR" level reaches the analyzer as a date filter "ERROR" and no level filter |
| `AnalyzerWindow.FlagsRoundTrip` | MacroPadApp/gui/LogAnalyzerWindow.py:71-77 | read as flag/value pairs (the corrected parser `ParseFlags`), the command gives back exactly the filters the fields stand for |
| `LogAnalyzer.ParseFlags` | MacroPadApp/gui/LogAnalyzerWindow.py:71-77 | the corrected argument reading: flag/value pairs after the executable, in any order (definition; `FlagsRoundTrip` proves it inverts the window's command) |
| `Firmware.PinsAndKeys` | firmware/MacroPadFirmware.cpp:4-7 | button i uses pin i + 2 and key '1' + i; no two buttons share a key |
| `Firmware.EdgesOfKey` | firmware/MacroPadFirmware.cpp:22-32 | in a pass each key carries exactly its own button's edge |
| `Firmware.EdgeMeaning` | firmware/MacroPadFirmware.cpp:25-28 | key i is pressed iff its level went HIGH→LOW, released iff LOW→HIGH, at most one event per button, none if unchanged |
| `Firmware.Alternation` | firmware/MacroPadFirmware.cpp:15-31 | from the all-HIGH start, each key's events alternate press, release, …, starting with a press; the key is held iff its button is LOW now |
| `Firmware.AlternationStep` | firmware/MacroPadFirmware.cpp:25-31 | one pass keeps each key's events alternating and in step with its level |
| `Firmware.Keypad.constructor` | firmware/MacroPadFirmware.cpp:9-10 | two distinct nine-entry arrays, zero-initialised (LOW) |
| `Firmware.Keypad.Setup` | firmware/MacroPadFirmware.cpp:12-19 | configures pins 2..10 in order, and both arrays are all HIGH after it |
| `Firmware.Keypad.Loop` | firmware/MacroPadFirmware.cpp:21-34 | both arrays end up holding the pass's readings, and the events are the edges from the previous levels, in button order |

## Left out

- tkinter widgets, layout, message boxes, the `after` scheduling and the status label: UI. `updateStatus` and the toggle callback are recorded as events; the dialog's answer is an input.
- InfoWindow, AutoStartManager, both SystemTrayIcon files, CleanRun and Settings: pop-up, registry and file-system glue with no logic of the core.
- Threads, daemon loops, `stop_event` waits and `time.sleep`: concurrency. Each loop is one iteration or a given run of iterations, and sleeps are trace entries.
- The Rust channel and the four worker threads: modelled as one sequential fold (`Worker`), with `TallyPermutation` and `TallyAppend` showing that the counts do not depend on how the lines are shared or ordered.
- pyserial itself: the port is the abstract `Port` (open oracle, `is_open`, waiting lines, written data, raise flags). The 2-second settle delay after opening, `listSerialPorts`, and UTF-8 decoding with `errors='ignore'` are not modelled: a received line is already a string.
- `Logger` calls inside `SerialManager`, `MacroManager.setActions` and `LogAnalyzer.rs`'s `println!` are not traced; the Logger module is not part of this model.
- The supervisor's and the window's logs are traced.
- JSON encoding and file I/O in `MacroManager`: the file is an `Option<map>`. A malformed file, which makes `loadActions` raise, is not modelled.
- `subprocess.Popen`/`subprocess.run` and `os.path.isfile`: foreign calls. Their outcome is an input and the command is an output. For `subprocess.run` the outcome is one of three: exit 0, a non-zero exit, or an `OSError` that escapes `runRustAnalysis`; the `Popen` failure is any exception, caught by `runAction`.
- `int()` accepts more than ASCII digits (underscores, Unicode digits, surrounding spaces); `ButtonNumber` parses optional sign and ASCII digits only.
- Rust's Unicode `to_lowercase` is ASCII lower-casing here.
- `LogAnalyzer.Analyze`: an I/O error in the middle of reading (`line?`) is not modelled; only a file that cannot be opened is.
- The windows call `setAction`, but `GUI/MacroManager.py:70` defines `setActions`. The `logic/MacroManager.py` the windows import is not part of this model; the model uses `setActions`.
- `Gui.MacroPadApp.ConnectionCycle`: button toggling is panel state, not a trace event, so the trace does not show that the window enables buttons after starting the listener and disables them before the "Disconnected" status; the supervisor's trace (`Toggle` events) does.
- `Gui.MacroPadApp.AnimateStatus`: models passes for a given sequence of connected/disconnected observations; the thread's interleaving with the connection loop is not modelled.
- `Firmware.Keypad.Loop`: `digitalRead` results are the input sequence, `Keyboard.press`/`release` the output events; `Keyboard.begin`, `pinMode`'s pull-up and the 50 ms `delay` are not modelled beyond the list of configured pins.
- `unit_test.py` is not modelled: most tests check mocks.

## Findings

| source | as written | input that shows it | evidently intended | confidence | as-written member | corrected member |
|---|---|---|---|---|---|---|
| MacroPadApp/logic/SerialManager.py:104 | `write` calls `self.disconnect()`, which the class does not define | a connected manager whose port raises on write: the AttributeError escapes `write` and the connection is left as it was | close the connection (`close`) after the error is logged | high (not executed) | `Serial.SerialManager.WriteAsWritten` | `Serial.SerialManager.Write` |
| MacroPadApp/logic/SerialManager.py:123 | `readLine` calls `self.disconnect()`, which the class does not define | a connected manager with a waiting line whose port raises on read: the AttributeError escapes `readLine` and kills the listener thread | close the connection and return None | high (not executed) | `Serial.SerialManager.ReadLineAsWritten` | `Serial.SerialManager.ReadLine` |
| MacroPadApp/gui/MacroPadGUI.py:140 | the window's supervision loop calls `get_port()`; the method is `getPort` (`SerialManager.py:85`) | a disconnected window and any port list with a port that opens: the first successful connect raises AttributeError, ending the loop with the device connected, buttons disabled and no listener | read the port with `getPort()` | high (not executed) | `Gui.MacroPadApp.ConnectionCycleAsWritten` | `Gui.MacroPadApp.ConnectionCycle` |
| MacroPadApp/gui/LogAnalyzerWindow.py:72-77 | the window passes `--type T --date D --keyword K`, but the analyzer reads arguments 1–3 by position (`LogAnalyzer.rs:103-110`) | level "ERROR" with the other fields empty: `[exe, "--type", "ERROR"]` runs with no level filter and the date filter "ERROR" | the analyzer reads the flag/value pairs the window sends | high (not executed) | `AnalyzerWindow.FlagsMisparsed` | `AnalyzerWindow.FlagsRoundTrip` |
