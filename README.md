# Activity tracker: verified model of the tracking core

`activitytracker3000.py` is a desktop activity tracker. Keyboard and mouse
listeners stamp the time of the latest input. A tracking loop, ticking every
0.1 s, decides whether the user is active (less than the inactivity timeout
since the last input). Each tick it closes and opens active or idle intervals,
keeps the last and longest spell of each kind, and adds the tick to the day's
active or idle total. When the date changes it saves the day and starts the
next one from zero. The same loop counts down a Pomodoro work/break timer,
which the user starts, pauses, resumes, resets and configures.

The project models that core in six modules:

- `Optional` (`optional.dfy`): the `Option` type used for the nullable start times and the parsed entries.
- `TimeFormat` (`timeformat.dfy`): `format_hms_string` and `format_ms_string`. Python's float `//` and `%` are written out. A reference parser reads the text back.
- `Classifier` (`classifier.dfy`): the per-tick classifier and interval accountant. Also the inactivity-timeout setting and its range check.
- `Pomodoro` (`pomodoro.dfy`): the timer's modes, its commands, the per-tick countdown with its phase hand-off, and the settings validation.
- `Persistence` (`persistence.dfy`): the record-shape parse of `load_daily_data`, the object `save_daily_data` writes, and the date-keyed store.
- `App` (`app.dfy`): the whole shared state.
  - Every input handler, tick and command is a pure function on a `TrackerState` value.
  - `Replay` runs any sequence of them, one atomic step each, and keeps the invariant.
  - The class `App.Tracker` holds the state in fields. Its methods update those fields in place, as the source updates `app_state`, and each is proved to agree with its pure function.

Time is `real` seconds, and the tracker's inputs are parameters:

- the wall clock (`now`) and the date (`today`);
- the length of a mouse move (`dist`);
- the value the data file holds for a day (`StoredDay`);
- the parsed settings entries: `Option`, with `None` where Python's `int()` or `float()` would raise.

The main invariant is `App.Consistent`. Under it:

- exactly one of the current-activity and current-idle start times is set;
- an active previous tick has an open activity interval;
- the Pomodoro timer's remaining time is never negative, except for the `-1` finished sentinel;
- the inactivity timeout lies in `[1, 3600]`.

Some behaviour a reader might expect of a tracker like this is not in the code, and the model does not add it:

- The file has no global pause controller, no timed or extendable breaks and no focus-session log, so the model has none.
- Accepted Pomodoro settings reset the remaining time only when the timer is idle.
- A date change does not zero `mouse_clicks_today`; only the manual reset does.
- Clicks are neither saved nor loaded.
- The only effectiveness figure is the day's active share `eff_p` (line 566), shown as "SESSION EFFECTIVENESS"; its 50 % threshold (lines 567 and 572) only picks a colour, so it is display only and not modelled.

## Model

| member | source | states |
|---|---|---|
| TimeFormat.Clamp | activitytracker3000.py:93-96 | `max(0, s)`: the result is `s` when `s` is non-negative and `0` otherwise |
| TimeFormat.FloorDiv | activitytracker3000.py:93-96 | float `c // d` and `c % d` by a positive integer, floored, agree with integer division and remainder of `floor(c)` |
| TimeFormat.HmsFields | activitytracker3000.py:93-94 | the hour, minute and second fields of the clamped value: minutes and seconds are below 60, and `h*3600 + m*60 + s` is the clamped value's whole seconds |
| TimeFormat.MsFields | activitytracker3000.py:95-96 | seconds below 60, and `m*60 + s` is the clamped value's whole seconds |
| TimeFormat.Pad2Value | activitytracker3000.py:94 | `:02d` gives at least two digits, exactly two below 100, reading back as the number |
| TimeFormat.HmsRoundTrip | activitytracker3000.py:93-94 | reading the `HH:MM:SS` text back gives the whole seconds of `max(0, s)`, through a reader that refuses minute or second fields of 60 or more, so no field spills into another |
| TimeFormat.MsRoundTrip | activitytracker3000.py:95-96 | reading the `MM:SS` text back gives the whole seconds of `max(0, s)`, through a reader that refuses a second field of 60 or more |
| TimeFormat.FormatHms | activitytracker3000.py:93-94 | the text is an hour field of at least two digits, `:`, two minute digits, `:`, two second digits (the round trip is `HmsRoundTrip`) |
| TimeFormat.FormatMs | activitytracker3000.py:95-96 | the text is a minute field of at least two digits, `:`, two second digits (the round trip is `MsRoundTrip`) |
| TimeFormat.SentinelShownAsZero | activitytracker3000.py:95-96 | the Pomodoro finished value `-1` is displayed as `00:00` |
| Classifier.IsActive | activitytracker3000.py:694 | the classification: active while less than the timeout has passed since the last input; `InputMakesActive` and `Step` state what follows from it |
| Classifier.Accrue | activitytracker3000.py:716-720 | the tick is added to exactly one total, or to neither when the user is idle with no idle interval open; the previous-state flag becomes `active_now`; nothing else changes |
| Classifier.BecomeIdle | activitytracker3000.py:696-703 | idle start backdated to the last input, activity start cleared; last activity duration and `max(old, dur)` updated exactly when the closed spell is positive, otherwise both kept; totals and idle records kept; spell bounds preserved |
| Classifier.BecomeActive | activitytracker3000.py:705-715 | activity start is `now`, idle start cleared; an idle spell longer than 1 s sets the last inactivity duration and raises the maximum only if larger; a shorter one, or none, keeps both; spell bounds preserved |
| Classifier.Step | activitytracker3000.py:690-720 | the previous-state flag ends equal to `active_now`; active adds exactly 0.1 s to the active total; idle adds 0.1 s to the idle total only with an idle interval open; totals and maxima never fall; the one-open-start invariant and spell bounds are preserved; without a change of state, starts and spells are untouched |
| Classifier.Fresh | activitytracker3000.py:681-686 | the reset accounting state: all totals, maxima and last-spell durations zero, the activity interval open at `now`, the previous tick active; it is synced and within bounds |
| Classifier.ShortIdleIgnored | activitytracker3000.py:708-714 | a return to activity after an idle spell of at most 1 s leaves the last and maximum idle durations unchanged |
| Classifier.ApplyTimeout | activitytracker3000.py:613-622 | accepted exactly when the entry parses and lies in `[1.0, 3600.0]`; then the timeout is the entry, otherwise it is unchanged; the range is preserved |
| Pomodoro.ModeNames | activitytracker3000.py:634-642 | the mode strings are distinct, only paused modes start with `paused_`, and the part after it names the phase to resume |
| Pomodoro.Next | activitytracker3000.py:737 | the hand-off phase differs from the finished one |
| Pomodoro.Initial | activitytracker3000.py:84-87 | the timer starts idle with 25-minute work and 5-minute break durations, remaining set to the full work phase, start and paused time 0; it keeps its invariant |
| Pomodoro.Start | activitytracker3000.py:625-628 | mode becomes the phase, remaining its full duration, start time `now`; durations kept; invariant preserved |
| Pomodoro.Pause | activitytracker3000.py:631-635 | a no-op unless running; otherwise `paused_<phase>`, the remaining time saved aside, start time 0; invariant preserved |
| Pomodoro.Resume | activitytracker3000.py:638-646 | a no-op unless paused; otherwise the phase runs again with the saved remaining time, and `duration - (now - start)` equals that time; invariant preserved |
| Pomodoro.Reset | activitytracker3000.py:649-650 | idle, remaining set to the work duration, start and paused time 0; invariant preserved |
| Pomodoro.Countdown | activitytracker3000.py:726-738 | only a running phase with a start time and no pending hand-off moves; remaining becomes `duration - elapsed` while positive; otherwise it becomes `-1` with start time 0 and the other phase is handed off; mode and durations kept; never negative except `-1` |
| Pomodoro.ApplySettings | activitytracker3000.py:604-612 | accepted exactly when both entries parse and `0 < m < 1000`; then both durations become `m*60`, and the remaining time becomes the new work duration only when idle; a rejection changes nothing; invariant preserved |
| Pomodoro.PauseResume | activitytracker3000.py:631-646 | pausing, then resuming at any later time, restores mode and remaining time, and the next countdown reads that same time back |
| Pomodoro.CountdownAfterResume | activitytracker3000.py:638-646 | `d` seconds after a resume the countdown shows `paused_rem - d`, or finishes and hands off once that is not positive |
| Pomodoro.HandOff | activitytracker3000.py:735-738 | a finished work phase hands off to a full break and a finished break to a full work phase |
| Persistence.Defaults | activitytracker3000.py:120-122 | the default record, every counter zero; `ParseDay` and `LoadReadsStored` say when it is used |
| Persistence.Trunc | activitytracker3000.py:131 | `int(x)` truncates toward zero: the integer at or below a non-negative `x` and at or above a negative one |
| Persistence.ParseDay | activitytracker3000.py:129-132 | a missing or non-numeric day reads as all zeros; a bare number (a boolean counting as 0 or 1) gives only the active seconds |
| Persistence.ParseObject | activitytracker3000.py:130-131 | an object is read field by field from the loader's key names, zero where missing, keystrokes truncated; an empty object reads as all zeros |
| Persistence.SavedFieldsAsWritten | activitytracker3000.py:151-154 | the object written for a day has none of the loader's counter keys, and carries the two last-spell durations under the names both sides share |
| Persistence.ReloadAsWrittenLosesCounters | activitytracker3000.py:129-132 | a day saved with the keys the save writes reloads with every counter zero except the two last-spell durations |
| Persistence.ReloadAsWrittenExample | activitytracker3000.py:151-154 | 100 s active and 50 s idle, saved and reloaded, come back as 0 s and 0 s |
| Persistence.ReloadRestores | activitytracker3000.py:129-132 | a day saved under the loader's own key names reads back exactly |
| Persistence.SaveAsWritten | activitytracker3000.py:151-155 | the save as written: the saved day's entry is replaced and every other day is kept |
| Persistence.LoadAfterSaveAsWritten | activitytracker3000.py:129-155 | loading a day after the save as written gives back only its two last-spell durations; other days read as before |
| Persistence.Save | activitytracker3000.py:155 | the save with the loader's key names: the saved day's entry is replaced and every other day is kept |
| Persistence.LoadAfterSave | activitytracker3000.py:129-155 | with the loader's key names, loading a day after saving it gives the saved record; other days read as before |
| App.KeyPress | activitytracker3000.py:106-108 | one more keystroke; the keyboard and overall activity times become `now`; every other field of the state is unchanged |
| App.Click | activitytracker3000.py:110-115 | a press adds one click and stamps the activity time, every other field unchanged; a release changes nothing |
| App.Move | activitytracker3000.py:98-105 | distance grows by the step only when a previous position is known, so it never falls for a non-negative step; positions and movement and activity times updated; every other field unchanged |
| App.InputMakesActive | activitytracker3000.py:694 | after any input (key press, click or move) at `now`, a later tick finds the user active exactly while less than the timeout has passed |
| App.Snapshot | activitytracker3000.py:150-154 | the saved counters are the day's totals, maxima, distance, keystrokes and last durations |
| App.Load | activitytracker3000.py:129-141 | the day becomes today, the counters come from the stored value, a fresh activity interval opens; the invariant holds after it; timer, timeout and every input field but distance and keystrokes kept |
| App.LoadReadsStored | activitytracker3000.py:129-141 | the counters after a load are exactly the parse of the stored value, and all zero when nothing is stored |
| App.Boot | activitytracker3000.py:71-90 | the state at import: it keeps the invariant, with an activity interval open since `now`, the previous tick not active, no idle interval open, the last input stamped at `now`, and the timer idle |
| App.StartUp | activitytracker3000.py:71-90 | the initial state followed by the load of today keeps the invariant, with the timer idle and the initial timeout |
| App.RolloverReset | activitytracker3000.py:678-688 | the date change's reset: the day is today, every time, distance and keystroke counter is zero, the activity interval opens at `now`, the previous tick is active; clicks, last mouse position, movement and keyboard times kept |
| App.Rollover | activitytracker3000.py:675-689 | reset then reload keeps the invariant, leaves the accounting synced, and stamps today and `now` |
| App.ResetDaily | activitytracker3000.py:538-550 | as the rollover reset, and also clicks zero and the reset time recorded as `now`; last mouse position, movement and keyboard times kept; the invariant is preserved |
| App.TrackingTick | activitytracker3000.py:672-738 | the invariant is preserved; a date change saves the outgoing day under its own key; on the same day only the accounting and timer move, no total or maximum falls, and once the accounting is synced the two totals gain exactly 0.1 s together (an out-of-sync inactive tick adds to neither) |
| App.InactiveSecondsAsWritten | activitytracker3000.py:722 | the inactive-time reckoning as written raises exactly when the tick found the user inactive with no idle interval open; otherwise it is 0 while active and the time since the idle start while idle |
| App.InactiveSeconds | activitytracker3000.py:722 | the reckoning as intended: defined on every tick, equal to the one as written wherever that does not raise, and 0 where it raises |
| App.FirstTickRaises | activitytracker3000.py:722 | a first tick at least the initial timeout after the import-time stamp, with no input in between, reaches the raise from a state keeping the invariant |
| App.PromptFirstTickSyncs | activitytracker3000.py:694-722 | a first tick less than the initial timeout after the import-time stamp finds the user active and leaves the open interval in agreement with the classification, so it does not raise |
| App.SyncedTickNeverRaises | activitytracker3000.py:716-722 | from a state whose open interval agrees with the classification, the reckoning as written does not raise |
| App.RolloverStartsFromZero | activitytracker3000.py:675-720 | the first tick of a new day with nothing stored counts only itself, as active time, with every other counter but clicks zero |
| App.RolloverSaveRestores | activitytracker3000.py:675-677 | with the loader's key names, the day saved at a date change reads back exactly when loaded later |
| App.RolloverSaveAsWrittenLoses | activitytracker3000.py:675-677 | with the save as written, the day saved at a date change reloads with every counter zero except the two last-spell durations |
| App.Replay | activitytracker3000.py:669-738 | any sequence of atomic ticks, inputs and commands preserves the invariant and the synced accounting |
| App.EveryRunKeepsInvariant | activitytracker3000.py:77-78 | every state reachable from start-up keeps the invariant, so exactly one interval start is open |
| App.Tracker.constructor | activitytracker3000.py:71-90 | the object starts as the start-up state and is valid |
| App.Tracker.LoadDailyData | activitytracker3000.py:129-141 | in place, the fields become `Load` of the old state |
| App.Tracker.Tick | activitytracker3000.py:672-738 | in place, the fields, the saved day and the hand-off equal `TrackingTick` of the old state; validity is kept |
| App.Tracker.CheckDayChange | activitytracker3000.py:674-689 | on a new date the fields become `Rollover` of the old state, and the outgoing day is returned for saving; otherwise nothing changes |
| App.Tracker.AccountActivity | activitytracker3000.py:690-720 | in place, the accounting fields become `Step` of the old ones and nothing else changes |
| App.Tracker.CountDown | activitytracker3000.py:726-738 | in place, the timer becomes `Countdown` of the old timer, its hand-off returned; nothing else changes |
| App.Tracker.ResetDailyActivityCounter | activitytracker3000.py:538-550 | in place, the fields become `ResetDaily` of the old state; validity is kept |
| App.Tracker.OnKeyPress | activitytracker3000.py:106-108 | in place, the fields become `KeyPress` of the old state |
| App.Tracker.OnClick | activitytracker3000.py:110-115 | in place, the fields become `Click` of the old state |
| App.Tracker.OnMove | activitytracker3000.py:98-105 | in place, the fields become `Move` of the old state |
| App.Tracker.PomodoroAction | activitytracker3000.py:625-628 | in place, the timer becomes `Start` of the old one; the rest is unchanged |
| App.Tracker.PomodoroPause | activitytracker3000.py:631-635 | in place, the timer becomes `Pause` of the old one |
| App.Tracker.PomodoroResume | activitytracker3000.py:638-646 | in place, the timer becomes `Resume` of the old one |
| App.Tracker.PomodoroReset | activitytracker3000.py:649-650 | in place, the timer becomes `Reset` of the old one |
| App.Tracker.ApplyPomodoroSettings | activitytracker3000.py:604-612 | in place, the timer and the verdict are `ApplySettings` of the old timer |
| App.Tracker.ApplyInactivityTimeoutSetting | activitytracker3000.py:613-622 | in place, the timeout and the verdict are `ApplyTimeout` of the old timeout |

## Left out

- Threads, `state_lock`, the pynput listeners and shutdown: each handler, tick and command is one atomic step, and any interleaving is a sequence (`App.Replay`).
- The `running` flag and the loop's exit: a tick is one iteration of the loop body.
- `time.sleep` and its drift correction: time is a parameter.
- `time.time()` and `datetime.date.today()`: `now` and `today` are parameters. A tick uses one `now` throughout, including in the reload after a date change, where the source reads the clock again.
- The periodic save every 60 s (line 739) and the final save at shutdown: these only write the file. The save at a date change is modelled as the tick's `saved` output. `Persistence.SaveAsWritten` models its merge into the store as written, and `Persistence.Save` the merge with the loader's key names.
- JSON text, file reads and writes, and `round(..., 2)` on save: the stored day is given already decoded. `Absent` stands for no entry and for a missing, empty or undecodable file, which the source's `try` turns into an empty store.
- A data file that decodes to something other than an object (a list, a number): line 129's `.get` then raises outside the `try`, ending start-up or the tracking thread. The model has no such store.
- App.Move: the distance step is `math.sqrt` of the squared offsets; it is a parameter, unconstrained.
- Persistence.ParseDay: an object's members are taken after conversion to numbers. Line 131's `float()` and `int()` also accept numeric strings and booleans (`float("3.5")`, `float(True)`, `int("12")`); the model covers those through the number they convert to. A member they cannot convert (`null`, `"abc"`, and `"12.5"` for the keystrokes) raises, and the model has no such member.
- Float rounding: all arithmetic is exact on `real`, so the 0.1 s increments add exactly.
- App.TrackingTick: a tick that finds the user inactive with no idle interval open raises at line 722 and ends the tracking thread; the model's tick completes instead (see Findings, `App.FirstTickRaises`).
- Log messages, including the "Still inactive" throttling (lines 721-725), `add_log_message` and console trimming.
- The GUI: layout, fonts, resizing, the display refresh, the button enabling in `update_pomodoro_buttons`, and restoring the timeout entry's text after a rejected value.
- Text parsing of the settings entries (`int()`, `float()`): the entries arrive parsed, `None` standing for a raise.
- Persistence.Save: uses the loader's key names, not the state's names that lines 151-154 write; the save as written is `Persistence.SaveAsWritten`.
- Persistence.LoadAfterSave: holds for the save with the loader's key names; as written a reload keeps only the two last-spell durations (`Persistence.LoadAfterSaveAsWritten`).
- App.RolloverSaveRestores: holds for the save with the loader's key names; as written see `App.RolloverSaveAsWrittenLoses`.
- `self.after(0, next_act)`: the hand-off is returned as the phase to start. The start happens later as its own step (`Pomodoro.Start`, the `StartPomodoro` event), reading the durations current at that time.

## Findings

| source | as written | input that shows it | evidently intended | confidence | as-written member | corrected member |
|---|---|---|---|---|---|---|
| activitytracker3000.py:722 | every inactive tick computes `now - app_state.get("current_idle_start_time", now)`; the key is always present, so with no idle interval open it subtracts `None`, raising `TypeError` outside any `try` and ending the tracking thread | a first tick that runs at least 10 s after the import-time stamps of lines 74-83 (a start-up that slow before line 214 starts the loop, or the clock jumping forward), so it finds the user inactive while start-up left an activity interval open and no idle one; the loop ticks at once (lines 669-672), so a normal start-up finds the user active instead | an inactive tick with no idle interval open counts 0 inactive seconds and the loop carries on | not executed; follows from lines 78, 82 and 694-722 | App.FirstTickRaises | App.InactiveSeconds |
| activitytracker3000.py:151-154 | `save_daily_data` writes each day under the state's key names (`total_active_seconds_today`, `keystrokes_today`, ...), while `load_daily_data` (line 131) reads `active_seconds`, `keystrokes`, ... | a day with 100 s active and 50 s idle, saved, then loaded again (a restart on the same day) | a saved day reloads with its counters | not executed; the mismatch follows from the key names alone | Persistence.ReloadAsWrittenLosesCounters | Persistence.ReloadRestores |

The model's tick completes on every input, as the corrected reckoning does; `App.SyncedTickNeverRaises` shows that once the open interval agrees with the classification (after a reset, a rollover or any active tick, by `Classifier.Step`) the raise cannot happen, and `App.PromptFirstTickSyncs` shows that a prompt first tick reaches such a state, so only the very first tick can raise. The model's store (`Persistence.Save`, `Persistence.LoadAfterSave`, `App.RolloverSaveRestores`) uses the corrected key names. Under the code as written, only `last_activity_duration` and `last_inactivity_duration` survive a reload; `Persistence.ReloadAsWrittenExample` shows the concrete case.
