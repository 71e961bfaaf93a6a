# Microphone volume enforcer: the monitoring controller in Dafny

MicrophoneEnhancer is a small Windows desktop tool. It lists the active
recording endpoints and lets the user pick one. While monitoring, it
writes a target input level to that endpoint, then writes it again every
N seconds, so that other programs cannot lower the microphone level for
long. This project models the controller behind the window: the class
`MicrophoneApp` and the older module-level version of the same program
that follows it in the same file.

The model has these parts:

- `Text` (text.dfy) covers the text handling the interval field relies on:
  Python's `str.strip()`, the base-10 literals `int()` accepts, and
  `str()` of an integer. `strip()` and `int()` skip different
  whitespace: `int()` does not skip U+001C to U+001F, which `strip()`
  removes. So the controller's stripped field and the older version's
  raw field can read differently.
- `Interval` (interval.dfy) covers the two interval policies. The
  controller's `get_frequency_seconds` rejects a bad interval and restores
  the field. The older `set_target_volume` falls back to five seconds.
- `Devices` and `Volume` (devices.dfy) cover capture endpoints, the
  combobox values, the name-keyed device map, the selection rule applied
  after every refresh, the clamp to [0, 100] and the scalar that is written.
- `Timer` (timer.dfy) is the Tk event loop's timer as a class. `after`
  hands out a fresh token, `after_cancel` withdraws one, and the loop
  withdraws a callback when it runs it.
- `Machine` (machine.dfy) states every handler of `MicrophoneApp` as a
  function on a `State` value. It proves the controller's invariant and
  what the handlers promise. Two examples: at most one enforcement
  callback is ever pending, and nothing is written after Stop.
- `Controller` (controller.dfy) is the class `MicrophoneApp`, with the
  fields its handlers update in place and an `EventLoop` as `root`. Each
  method is proved to move `Snapshot()` exactly as the `Machine` function
  of the same role moves a `State`. So every lemma about `Machine` holds
  of the object.
- `Legacy` (legacy.dfy) is the older module-level program: globals become
  the fields of `LegacyApp`. It includes the scenario that shows its Stop
  does not stop a second chain of callbacks (see Findings).

The outcome of the endpoint write (`SetMasterVolumeLevelScalar`) is a
boolean parameter `writeOk`. Device enumeration is a parameter holding
the list of devices. The event loop's choice of which pending callback to
run is the token passed to `OnTimer` in the older program.

## Model

| member | source | states |
|---|---|---|
| Text.IsSpace | MicrophoneEnhancer.py:297 | `str.isspace()` of one code point; no digit and no sign is whitespace, so neither `strip()` nor `int()` eats into a literal |
| Text.TrimStartSpec | MicrophoneEnhancer.py:297 | the leading half of a trim drops a prefix made of its whitespace set (that of `strip()` or that of `int()`) and keeps a text that does not start with such whitespace |
| Text.TrimEndSpec | MicrophoneEnhancer.py:297 | the trailing half of a trim drops a suffix made of its whitespace set and keeps a text that does not end with such whitespace |
| Text.Trim | MicrophoneEnhancer.py:297 | drops whitespace of one set at both ends: `strip()`'s set at line 297, the set `int()` skips at line 545; a text made only of that whitespace trims to the empty text |
| Text.Strip | MicrophoneEnhancer.py:297 | `strip()` removes every `isspace()` character, U+001C to U+001F included, and an all-whitespace text strips to the empty text (TrimSpec and TrimRemovesOnlyBlanks state what it keeps in general) |
| Text.AllBlankTrims | MicrophoneEnhancer.py:297 | the leading trim and the trailing trim each reduce a text made only of their whitespace set to the empty text |
| Text.TrimSpec | MicrophoneEnhancer.py:297 | the trimmed text is no longer than the input and neither starts nor ends with whitespace of the set |
| Text.TrimRemovesOnlyBlanks | MicrophoneEnhancer.py:297 | the trimmed text is a contiguous slice of the input, and everything around it is whitespace of the set |
| Text.TrimAt | MicrophoneEnhancer.py:297 | the slice starts right after the whitespace the leading trim drops |
| Text.TrimPadded | MicrophoneEnhancer.py:297 | whitespace of the set around a text with no such whitespace at its ends is exactly what the trim removes |
| Text.StripIdempotent | MicrophoneEnhancer.py:297 | stripping twice is stripping once |
| Text.ParseDecimal | MicrophoneEnhancer.py:299 | `int()` of an unpadded literal: an optional sign and one or more ASCII digits; any accepted literal has non-whitespace ends (ParseDecimalExactly states which texts are accepted and their values) |
| Text.ParseDecimalReadsSpelling | MicrophoneEnhancer.py:299 | every spelling of `v` (no sign or `+` when `v >= 0`, `-` when `v <= 0`, any leading zeros, then the digits of the magnitude) is read as `v`, so `int("+007") == 7` and `int("-0") == 0` |
| Text.ParseDecimalOnlySpellings | MicrophoneEnhancer.py:299 | every literal `int()` accepts is such a spelling of the value it is read as |
| Text.ParseDecimalExactly | MicrophoneEnhancer.py:299 | `int()` of an unpadded text succeeds with `v` if and only if the text spells `v`; anything else (such as "5s", "5.0", "1 2" or "") raises `ValueError` |
| Text.DigitsAreSpelled | MicrophoneEnhancer.py:299 | any run of ASCII digits is its leading zeros followed by the digits `str()` writes for its value |
| Text.CanonicalDigits | MicrophoneEnhancer.py:299 | digits with no leading zero are exactly what `str()` writes for their value |
| Text.PyInt | MicrophoneEnhancer.py:545 | bare `int()` of a text: the whitespace `int()` skips is ignored around the literal, which excludes U+001C to U+001F; a text made only of that whitespace raises `ValueError` (None) |
| Text.ShowInt | MicrophoneEnhancer.py:305 | `str()` of an integer is never empty; ParseDecimalShowInt proves `int()` reads it back |
| Text.PyIntOfStripped | MicrophoneEnhancer.py:297-299 | whenever bare `int()` accepts a text, `int()` of its stripped text reads the same number, and in a text without U+001C to U+001F the two always agree (SeparatorSplitsPolicies shows they can differ otherwise) |
| Text.PyIntAfterStrip | MicrophoneEnhancer.py:297-299 | after `strip()` there is nothing left for `int()` to skip, so line 299 parses the stripped text itself |
| Text.StripOfIntTrim | MicrophoneEnhancer.py:297-299 | when what `int()` would read has no whitespace at its ends, `strip()` yields that same text |
| Text.IntTrimWithoutSeparators | MicrophoneEnhancer.py:297-299 | in a text without U+001C to U+001F, what `int()` would read has no whitespace at its ends |
| Text.ShowNatValue | MicrophoneEnhancer.py:305 | the digits `str()` writes for a natural number have that value |
| Text.ParseDecimalShowInt | MicrophoneEnhancer.py:305 | `int(str(i)) == i` for every integer |
| Text.ParseShowRoundTrip | MicrophoneEnhancer.py:545 | `int(pre + str(i) + post) == i` for any padding made of the whitespace `int()` skips |
| Interval.FrequencyOf | MicrophoneEnhancer.py:296-306 | an accepted interval is positive (FrequencyOfStripped states which texts are accepted) |
| Interval.FrequencyOfStripped | MicrophoneEnhancer.py:296-306 | the interval is accepted if and only if the stripped field text is a literal of a number greater than zero, and then it is that number; any text bare `int()` reads as a positive number is accepted with it |
| Interval.LegacyInterval | MicrophoneEnhancer.py:544-551 | the older interval is always positive (PoliciesAgreeUnlessRejected states its value) |
| Interval.LegacyAccepts | MicrophoneEnhancer.py:544-547 | the older version takes no fallback exactly when bare `int()` of the raw field text succeeds with a positive number; every such text the controller accepts too, with the same number |
| Interval.FrequencyAcceptsPositive | MicrophoneEnhancer.py:297-301 | any positive integer written in decimal, padded with any `isspace()` whitespace, is accepted with its own value |
| Interval.FrequencyRejectsNonPositive | MicrophoneEnhancer.py:299-300 | zero and negative integers are rejected |
| Interval.FrequencyRejectsBlank | MicrophoneEnhancer.py:297-302 | an empty or all-whitespace field is rejected |
| Interval.ResetTextRevalidates | MicrophoneEnhancer.py:302-305 | the text written back after a rejection, `str(frequency_seconds)`, is accepted with that value |
| Interval.PoliciesAgreeUnlessRejected | MicrophoneEnhancer.py:544-551 | when the older version's bare `int()` reads a positive number, the controller accepts the same number; otherwise the older version uses 5 seconds, in particular wherever the controller rejects; in a field without U+001C to U+001F both accept exactly the same texts |
| Interval.SeparatorSplitsPolicies | MicrophoneEnhancer.py:544-551 | for "7" followed by U+001C the controller strips the separator and accepts 7 seconds, while the older version's `int()` raises and it falls back to 5 seconds |
| Devices.Names | MicrophoneEnhancer.py:250 | the combobox values are the friendly names, one per device, in enumeration order |
| Devices.DeviceMap | MicrophoneEnhancer.py:251 | the map's keys are exactly the listed names, and each key maps to a listed device of that name |
| Devices.DeviceMapKeepsLast | MicrophoneEnhancer.py:251 | of several devices sharing a name, the map keeps the one enumerated last |
| Devices.Reselect | MicrophoneEnhancer.py:254-259 | a selection still listed is kept; otherwise the first listed name is chosen; with no devices the selection is empty; with devices the result is always a key of the map |
| Volume.Clamp | MicrophoneEnhancer.py:291 | the result is in [0, 100], equals the input inside that range, and is 0 below it and 100 above it |
| Volume.ClampIsNearest | MicrophoneEnhancer.py:291 | no percent in [0, 100] is closer to the input than its clamp |
| Volume.VolumeScalar | MicrophoneEnhancer.py:335 | the scalar lies in [0, 1], is the clamped percent over 100, and is 1 or 0 exactly when the target is at or beyond the matching bound |
| Timer.EventLoop.After | MicrophoneEnhancer.py:362 | `after` registers the delay under a token never handed out before |
| Timer.EventLoop.Cancel | MicrophoneEnhancer.py:354 | `after_cancel` withdraws that token only, and is harmless on a token already gone |
| Timer.EventLoop.Dispatch | MicrophoneEnhancer.py:362 | the loop withdraws a pending callback as it runs it |
| Machine.Initial | MicrophoneEnhancer.py:46-57 | the initial fields satisfy the invariant: idle, interval 5, field "5", target 100 |
| Machine.ReadFrequency | MicrophoneEnhancer.py:296-306 | the result is the field's validation `FrequencyOf(frequency_var)`; an accepted interval is positive and leaves the state as it was; a rejection changes only the field, to `str(frequency_seconds)`, which reads back as the last accepted interval |
| Machine.CancelPending | MicrophoneEnhancer.py:353-355 | `after_cancel(after_id)` then `after_id = None`: no token is left, no callback is added, under the invariant nothing is pending, and nothing else changes (also lines 367-369) |
| Machine.Stop | MicrophoneEnhancer.py:364-370 | afterwards the controller is idle with no `after_id`; no callback is added, no write is made and only the flag, `after_id` and the pending callbacks can change |
| Machine.Schedule | MicrophoneEnhancer.py:350-362 | scheduling while idle changes nothing; if still monitoring afterwards, `after_id` names a pending callback and the interval is positive; only the flag, `after_id`, the callbacks, the token counter, the accepted interval and the field can change (ScheduleReplacesCallback and ScheduleRejectStops give the whole new state) |
| Machine.Enforce | MicrophoneEnhancer.py:332-348 | while idle nothing changes; a failed write records nothing and ends monitoring; otherwise at most the clamped target is appended, addressed to the bound endpoint; the target, the device, the selection and the device list never change (FailedWriteHalts and WriteSendsClampedTarget give the whole new state) |
| Machine.Start | MicrophoneEnhancer.py:308-330 | a start while monitoring changes nothing; a start that leaves the controller monitoring had a successful first write and bound the selected device; the target, the selection and the device list never change (StartRefused and StartAdmitted give the whole new state) |
| Machine.Arm | MicrophoneEnhancer.py:322-325 | setting a positive interval, the device and the flag keeps the invariant |
| Machine.DeviceSelected | MicrophoneEnhancer.py:273-280 | a device is bound exactly when the combobox name is a key of the map, and then it is `device_map[name]` (the last device of that name); the endpoint is that device's; nothing else changes; the invariant is kept |
| Machine.Relist | MicrophoneEnhancer.py:247-259 | the device list, the combobox values and the map become those of the enumerated devices, the selection becomes `Reselect` of the old one, nothing else changes, and the invariant is kept |
| Machine.Refresh | MicrophoneEnhancer.py:245-271 | the device list, combobox values and map become those of the enumerated devices and the selection is `Reselect` of the old one; no write is made; with no devices nothing is bound and monitoring stops; otherwise the reselected device is bound; the target, the interval, the field, the writes and the token counter never change |
| Machine.VolumeChanged | MicrophoneEnhancer.py:286-292 | the target becomes the clamp of the slider value, or of the old target when the value is unreadable, so it is always in [0, 100]; an in-range value is taken as is; nothing else changes |
| Machine.Fire | MicrophoneEnhancer.py:362 | a due callback is withdrawn and runs `enforce_target_volume`; with no `after_id`, or its callback gone, nothing happens; at most the clamped target is written, to the bound endpoint |
| Machine.FireEnforces | MicrophoneEnhancer.py:332-362 | while monitoring with a device bound, a due callback whose write succeeds sends the clamped target once and, with a valid interval, leaves exactly one new callback pending with that interval as delay; nothing else changes, the field included |
| Machine.FireRejectStops | MicrophoneEnhancer.py:332-362 | while monitoring with a device bound, a due callback whose write succeeds but whose interval field no longer validates sends the clamped target once, then stops monitoring with nothing pending and resets the field to `str(frequency_seconds)`; nothing else changes |
| Machine.StopHalts | MicrophoneEnhancer.py:364-370 | after stop the controller is idle with nothing pending, and only the flag and the callback token changed |
| Machine.StopIdempotent | MicrophoneEnhancer.py:364-366 | stopping twice is stopping once; stopping an idle controller changes nothing |
| Machine.ScheduleReplacesCallback | MicrophoneEnhancer.py:350-362 | with a valid interval the new state is the old one with exactly one callback pending under a fresh token, the interval in milliseconds as its delay, the interval recorded, and the field as the user left it; no write is made |
| Machine.ScheduleRejectStops | MicrophoneEnhancer.py:356-359 | with an invalid interval the new state is the old one with monitoring stopped, nothing pending, no `after_id`, and the field reset to `str(frequency_seconds)`, which validates; nothing else changes |
| Machine.ScheduleKeepsInv | MicrophoneEnhancer.py:350-362 | scheduling preserves the controller's invariant |
| Machine.ScheduleKeepsWrites | MicrophoneEnhancer.py:350-362 | scheduling never writes to an endpoint |
| Machine.EnforceNeedsBinding | MicrophoneEnhancer.py:333-334 | enforcement changes nothing while idle or with no endpoint bound |
| Machine.FailedWriteHalts | MicrophoneEnhancer.py:336-340 | a failed write stops monitoring and leaves nothing pending; no write is recorded and the field, interval, target and bound device stay as they were |
| Machine.WriteSendsClampedTarget | MicrophoneEnhancer.py:335-348 | a successful write sends the clamped target, as a scalar in [0, 1], to the bound endpoint, and then runs `schedule_next_enforcement` on the resulting state |
| Machine.EnforceKeepsInv | MicrophoneEnhancer.py:332-348 | enforcement preserves the invariant |
| Machine.StartRefused | MicrophoneEnhancer.py:308-319 | starting while monitoring, with no selection or with a selection that is no longer listed changes nothing; a start refused for an invalid interval only resets the field to `str(frequency_seconds)`; no write and no callback either way |
| Machine.StartAdmitted | MicrophoneEnhancer.py:308-330 | an admitted start binds the selected device, records the interval and writes the target at once; if the write succeeds it stays monitoring with exactly one callback pending with the interval as delay, and otherwise it is idle with nothing pending; the field is left as the user typed it, and nothing else changes |
| Machine.StartWriteSucceeds | MicrophoneEnhancer.py:320-330 | after the fields are set, a successful first write appends the clamped target and leaves one callback pending with the accepted interval; nothing else changes |
| Machine.StartKeepsInv | MicrophoneEnhancer.py:308-330 | starting preserves the invariant |
| Machine.RefreshToNothingStops | MicrophoneEnhancer.py:260-266 | a refresh that finds no device clears the selection, unbinds the device and stops monitoring with nothing pending |
| Machine.RefreshBindsSelection | MicrophoneEnhancer.py:253-271 | a refresh that finds devices binds the reselected device and leaves monitoring and the pending callback unchanged |
| Machine.RefreshKeepsInv | MicrophoneEnhancer.py:245-271 | refreshing preserves the invariant |
| Machine.StepKeepsInv | MicrophoneEnhancer.py:245-370 | every handler preserves the invariant |
| Machine.RunKeepsInv | MicrophoneEnhancer.py:245-370 | the invariant holds after any sequence of events |
| Machine.AtMostOnePending | MicrophoneEnhancer.py:350-370 | under the invariant at most one callback is pending, and only while monitoring, under `after_id` |
| Machine.NeverTwoCallbacks | MicrophoneEnhancer.py:46-65 | from start-up, however the events interleave, at most one callback is ever pending |
| Machine.NoWritesWhileIdle | MicrophoneEnhancer.py:333-334 | an idle controller writes nothing and schedules nothing until Start is pressed, whatever else happens |
| Machine.NoWritesAfterStop | MicrophoneEnhancer.py:364-370 | after Stop no level reaches an endpoint until Start is pressed again |
| Machine.StepWritesAtMostOnce | MicrophoneEnhancer.py:332-348 | each event writes at most once, and only the clamped target |
| Machine.WritesStayInRange | MicrophoneEnhancer.py:335-337 | every level ever written lies in [0, 1], whatever the slider held |
| Controller.MicrophoneApp.constructor | MicrophoneEnhancer.py:46-65 | `__init__` is the initial state followed by the first refresh |
| Controller.MicrophoneApp.RefreshDevices | MicrophoneEnhancer.py:245-271 | `refresh_devices` moves the object as `Machine.Refresh` moves a state, preserving the invariant |
| Controller.MicrophoneApp.Relist | MicrophoneEnhancer.py:247-259 | the list, map and selection part of the refresh, as `Machine.Relist` |
| Controller.MicrophoneApp.OnDeviceSelected | MicrophoneEnhancer.py:273-280 | binds the device the combobox names, or unbinds when the name is not in the map |
| Controller.MicrophoneApp.ChooseDevice | MicrophoneEnhancer.py:162 | the combobox selection event sets the name and runs `_on_device_selected` |
| Controller.MicrophoneApp.OnVolumeChange | MicrophoneEnhancer.py:286-292 | the slider value, or the current target when it does not parse, is clamped into [0, 100] |
| Controller.MicrophoneApp.EditFrequency | MicrophoneEnhancer.py:184 | the entry's text is the interval field and nothing else changes |
| Controller.MicrophoneApp.GetFrequencySeconds | MicrophoneEnhancer.py:296-306 | returns the accepted interval, or None with the field reset, as `Machine.ReadFrequency` |
| Controller.MicrophoneApp.StartMonitoring | MicrophoneEnhancer.py:308-330 | `start_monitoring` as `Machine.Start`, preserving the invariant |
| Controller.MicrophoneApp.Arm | MicrophoneEnhancer.py:322-325 | sets the interval, the device, its endpoint and the monitoring flag, as `Machine.Arm` |
| Controller.MicrophoneApp.EnforceTargetVolume | MicrophoneEnhancer.py:332-348 | `enforce_target_volume` as `Machine.Enforce`, preserving the invariant |
| Controller.MicrophoneApp.ScheduleNextEnforcement | MicrophoneEnhancer.py:350-362 | `schedule_next_enforcement` as `Machine.Schedule`, preserving the invariant |
| Controller.MicrophoneApp.StopMonitoring | MicrophoneEnhancer.py:364-370 | `stop_monitoring` as `Machine.Stop`, preserving the invariant |
| Controller.MicrophoneApp.OnTimer | MicrophoneEnhancer.py:362 | the loop runs the callback `after_id` names, if it is still pending, as `Machine.Fire` |
| Controller.DoubleStartThenStop | MicrophoneEnhancer.py:308-310 | on the object, Start pressed twice and then Stop leaves no callback pending, and a later timer tick writes nothing |
| Legacy.LegacyApp.constructor | MicrophoneEnhancer.py:591 | the widgets' initial values, then the module's closing `refresh_devices()` |
| Legacy.LegacyApp.RefreshDevices | MicrophoneEnhancer.py:448-461 | same selection rule as the controller; the bound endpoint and any pending callbacks are untouched |
| Legacy.LegacyApp.Start | MicrophoneEnhancer.py:519-554 | with no listed selection nothing changes. With one, its endpoint is bound. If the first write fails, nothing else changes. Otherwise the level is written and a new callback is armed with the interval, falling back to 5 and rewriting the field to "5" when bare `int()` of the raw field text fails or is not positive. No earlier chain is cancelled. |
| Legacy.LegacyApp.SetTargetVolume | MicrophoneEnhancer.py:535-552 | writes the clamped level when an endpoint is bound; a failed write raises before re-arming; otherwise it re-arms after the interval, falling back to 5 and rewriting the field to "5" when bare `int()` of the raw field text fails or is not positive, and overwrites `after_id` without cancelling the previous token |
| Legacy.LegacyApp.OnTimer | MicrophoneEnhancer.py:535-552 | any pending callback runs the same `set_target_volume`. On a failed write only that callback is consumed. Otherwise the level is written, a new callback is armed and the field is rewritten as in Start. |
| Legacy.LegacyApp.Stop | MicrophoneEnhancer.py:557-562 | cancels only the callback `after_id` names and clears `after_id`; every other field and the token counter are unchanged |
| Legacy.DoubleStartOutlivesStop | MicrophoneEnhancer.py:519-562 | Start pressed twice and then Stop leaves one callback pending, and when it runs it writes the level again |
| Legacy.DefaultIntervalAccepted | MicrophoneEnhancer.py:545 | the field's initial text "5" is read by bare `int()` as five seconds |

## Left out

- The window itself: styles, layout, status text and colours, the device
  details label, the "last applied" timestamp, the "next check" label and
  message boxes. None of them feeds back into the controller's decisions.
- Button and combobox enabling (MicrophoneEnhancer.py:326-328, 371-373).
  While monitoring, the Start button and the combobox are disabled, so
  the user cannot fire `_on_device_selected` or `start_monitoring` then.
  The model allows the `Chosen` and `StartPressed` events at any time. It
  therefore covers more event orders than the window allows, and every
  invariant is proved for all of them.
- Endpoint enumeration through COM (`get_audio_devices`,
  `MyGetAudioDevices`). It becomes the device list passed to the refresh.
- The volume write itself. Only its outcome (`writeOk`) and the value sent
  are modelled; the exception text is not.
- `Controller.MicrophoneApp.OnVolumeChange`: the slider's string goes
  through `int(float(value))`. Floating-point parsing is not modelled. The
  argument is the resulting integer, or None where that conversion raises.
- `Interval.FrequencyOf`, `Interval.LegacyInterval` and `Text.PyInt`:
  accept every integer literal, however long. From Python 3.11, `int()`
  raises `ValueError` on a literal of more than 4300 digits. Then
  `get_frequency_seconds` rejects the text and resets the field, and the
  older `set_target_volume` falls back to 5 seconds (line 545). The model
  reads the number instead. `Machine.Schedule`
  likewise always registers the next callback. In the program,
  `root.after` raises an uncaught `TclError` once `delay * 1000` reaches
  2^63 ms, after `after_id` was cleared at line 355. The controller then
  stays monitoring with nothing pending. Intervals that large (about
  292 million years) are outside the model.
- `Volume.VolumeScalar`: divides exactly, in reals. Python's `/ 100.0`
  gives the nearest double, so `VolumeScalar(p) * 100.0 == Clamp(p)` holds
  in the model only (in Python `57 / 100.0 * 100.0` is `56.99999999999999`).
  The range [0, 1] and the values at 0 and 100 hold in both.
- `Text.PyInt`: does not accept underscores between digits ("1_0"), or
  non-ASCII decimal digits (a full-width "５"), which Python's `int()` also
  accepts. The program reads such a field as 10 or 5; the model rejects it,
  so the controller resets the field or stops, and the older version falls
  back to 5 seconds.
- `Text.IsSpace` lists the whitespace code points of `str.isspace()` up
  to U+3000. Nothing beyond that set is modelled.
- Real time: delays are recorded in milliseconds but never elapse. A
  timer firing is an event, and which pending callback fires is the
  caller's choice.
- `on_close` and `main`: closing the window only cancels the callback and
  destroys the window.
- The leftover merge marker at MicrophoneEnhancer.py:405 makes the file
  as a whole fail to parse in Python. The older half could not run alone
  either: it uses `tk.Tk` and `tk.Frame` (432, 438) but imports only
  `ttk` (406), while `import tkinter as tk` is in the other half (line 1).
  Each half is modelled as its handlers would behave given the widgets
  it refers to.

## Findings

| source | as written | input that shows it | evidently intended | confidence | as-written member | corrected member |
|---|---|---|---|---|---|---|
| MicrophoneEnhancer.py:519-562 | `start()` has no guard against a second start. Each start begins a new self-rearming chain of `set_target_volume`. `after_id` keeps only the newest token, so `stop()` cancels one chain and the other keeps writing. | one device listed; press Start, Start, Stop; the first chain's callback is still pending and writes the level when it fires | Stop ends all enforcement: a second Start is ignored while monitoring, and at most one callback is ever pending (the controller class does this at lines 308-310 and 350-355) | not executed | Legacy.DoubleStartOutlivesStop | Controller.DoubleStartThenStop |
