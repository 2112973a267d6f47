# Middle-button autoscroll engine

The repository is a desktop utility that brings "middle-click autoscroll" to
every application. Pressing the middle mouse button starts a gesture and
records the press point as the gesture's origin. While the gesture lasts, a
scroll loop polls the pointer. It turns the displacement from the origin into
a scroll request that grows as a power of the distance beyond a dead zone. It
also reports a five-way direction (neutral, up, down, left, right) to an
overlay. Another middle press ends the gesture, and so does a left or right
press. The main window keeps named presets of the tunables. The built-in
preset "默认" cannot be deleted.

Five files each carry their own copy of the engine: `main.py`,
`mac/autoscroll_mac_ultimate.py`, `mac/autoscroll_mac.py`,
`autoscroll_xy_axis.py` and `autoscroll_qt_v2.py`. The copies differ only in
a few places, which `Variants.Variant` collects:
- the calibration constant `k`: 0.0001 on macOS and 0.00005 on Windows. `main.py` chooses it from the operating system;
- whether the loop is vertical-only with no direction feedback (`autoscroll_qt_v2.py`);
- whether the show notification carries the press point;
- whether preset records carry `start_minimized` (a five-key record in `mac/autoscroll_mac.py`).

One model covers all five copies.

Modules, one per file:
- `variants.dfy`: the per-copy differences.
- `config.dfy`: the shared `GlobalConfig` object as a class, plus `to_dict`/`from_dict`. `ToDict` is the pure record builder. `DictTunables` gives the tunables `from_dict` leaves behind. `GlobalConfig.FromDict` is the field assignment.
- `gesture.dfy`: the `on_click` state machine. `Click` is its specification on values. `OnClick` updates the configuration object in place.
- `transform.dfy`: one iteration of `scroll_loop`:
  - `Classify`: the direction;
  - `Magnitude`: the speed scalar;
  - `Emission` and `VerticalEmission`: the scroll vector;
  - `Tick` and `VerticalTick`: the imperative iteration on the configuration object.
- `engine.dfy`: the click handler and the scroll loop together, driven by an interleaving of button events and loop iterations:
  - `Step` and `Trace`: the specification;
  - `ScrollSession`: the loop over the events;
  - lemmas about whole runs.
- `presets.dfy`: the preset table. `Store` functions specify each operation. `PresetManager` is the window's state as a class whose methods edit the table in place and load records into the shared configuration.

`math.pow` and `math.hypot` are function parameters of type
`(real, real) -> real`. The properties that need something of them say so
with a hypothesis:
- `PowPositive`: positive on a positive base;
- `PowIncreasing(pow, e)`: increasing in the base at exponent `e`, which the real power is for every positive exponent. The settings keep the sensitivity between 1 and 5 (main.py:356). `PowIncreasingAtOne` and `PowIncreasingAtTwo` show the hypothesis holds for the power at exponents 1 and 2;
- `IsNorm` / `IsHypot`: returns the Euclidean norm.

The pointer position is an input of each loop iteration. The scroll request,
the overlay notifications and the direction notifications are outputs.

The code handles a pointer exactly at the origin with its strict
`dist > dead_zone` comparison. There is no separate zero check. With a
non-negative dead zone that comparison already prevents any division by
zero. Only a negative dead zone lets `dist == 0` reach `dx / dist`. The
resulting ZeroDivisionError is swallowed by the loop's bare `except`, so no
scroll is made. `Emission` models exactly that, and `VerticalDiffersAtOrigin`
shows that the vertical-only copy, which does not divide, scrolls up in the
same situation.

## Model

| member | source | states |
|---|---|---|
| Variants.MainPy | main.py:511 | main.py's calibration constant is 0.0001 on Darwin and 0.00005 elsewhere; it is a two-axis copy with six-key presets |
| Variants.MacUltimateIsMainOnDarwin | mac/autoscroll_mac_ultimate.py:566 | the mac ultimate copy (constant 0.0001, six-key records) is exactly main.py as it runs on macOS |
| Variants.MacBasicDiffersOnlyInRecords | mac/autoscroll_mac.py:490 | the basic mac copy has the constant 0.0001 and differs from the ultimate one only in its five-key records |
| Variants.XyAxisUsesWindowsConstant | autoscroll_xy_axis.py:331 | the xy-axis copy uses main.py's Windows constant 0.00005, scrolls on two axes and sends the press point with show |
| Variants.QtV2IsVerticalXyAxis | autoscroll_qt_v2.py:297 | the qt_v2 copy has the constant 0.00005 and is the xy-axis copy restricted to vertical scrolling |
| Config.DictTunables | main.py:123-129 | each tunable from_dict sets is the stored value when the key holds one of its type, and the class default (2.0, 2.0, 20.0, 60.0, True, False) when the key is missing; the five-key copy keeps start_minimized as it was |
| Config.ToDict | main.py:118-121 | the record has exactly the variant's keys (six, or five for mac/autoscroll_mac.py), and loading it with from_dict from any prior state restores every tunable it carries |
| Config.GlobalConfig.constructor | main.py:108-116 | a new configuration holds the class defaults, is inactive and has origin (0, 0) |
| Config.GlobalConfig.FromDict | main.py:123-129 | the new tunables are DictTunables of the record and the old tunables; active and origin are untouched |
| Gesture.Click | main.py:474-486 | a middle press toggles active; activation records (x, y) as origin and emits show (carrying (x, y) where the copy does so); deactivation emits hide; left/right presses cancel, with hide only if a gesture was active; releases and other buttons change nothing; a notification is emitted iff active flips, hide iff it goes from true to false; the origin moves only on activation |
| Gesture.OnClick | main.py:474-486 | the new (active, origin) and the notification are those of Click on the old state; the tunables are untouched |
| Transform.Displacement | main.py:493-496 | the origin plus the displacement is the pointer, only vertically when horizontal scrolling is off, where dx is 0 |
| Transform.Classify | main.py:498-502 | neutral iff dist <= dead_zone; left/right iff beyond it and abs(dx) > abs(dy) strictly, with dx's sign; up/down iff beyond it and abs(dx) <= abs(dy), with dy's sign; with a real norm and a non-negative dead zone, up implies dy < 0 |
| Transform.Magnitude | main.py:508-512 | the speed scalar is positive beyond the dead zone when pow is positive and k and speed_factor are positive |
| Transform.MagnitudeIncreasing | main.py:509-512 | the speed scalar grows strictly with the distance beyond the dead zone when pow at the configured sensitivity grows with its base |
| Transform.PowIncreasingAtOne | main.py:512 | a power that is the identity at exponent 1 meets the monotonicity hypothesis there |
| Transform.PowIncreasingAtTwo | main.py:512 | a power that squares at exponent 2, the default sensitivity, meets the monotonicity hypothesis there |
| Transform.Emission | main.py:508-514 | a scroll is requested iff dist > dead_zone and dist is not zero (dist == 0 raises ZeroDivisionError, which is swallowed); x is zero when dx is; x has the sign of dx and y the opposite sign of dy |
| Transform.EmissionScaled | autoscroll_xy_axis.py:331-341 | (scroll_x, -scroll_y) times dist equals (dx, dy) times the speed scalar: the request is the unit vector scaled by the magnitude with y negated |
| Transform.EmissionLength | mac/autoscroll_mac_ultimate.py:564-569 | with dist the Euclidean norm, the length of the requested vector is the speed scalar eff^sensitivity * k * speed_factor |
| Transform.NormWithoutHorizontal | autoscroll_xy_axis.py:305-315 | with dx forced to 0 the distance is abs(dy) |
| Transform.VerticalEmission | autoscroll_qt_v2.py:289-298 | a scroll is requested iff abs(dy) > dead_zone; x is always 0; abs(y) is (abs(dy) - dead_zone)^sensitivity * k * speed_factor; y is negative for dy > 0 and positive otherwise |
| Transform.VerticalMatchesTwoAxis | autoscroll_qt_v2.py:289-298 | away from the origin the vertical-only copy requests exactly what a two-axis copy requests with dx = 0 and dist = abs(dy) |
| Transform.VerticalDiffersAtOrigin | autoscroll_qt_v2.py:292-298 | at the origin with a negative dead zone the vertical copy scrolls while the two-axis copies make no request |
| Transform.HypotEmission | main.py:498-514 | with hypot the Euclidean norm and a non-negative dead zone a request is made exactly beyond the dead zone; its length is the speed scalar; x follows the displacement and y opposes it |
| Transform.Tick | main.py:490-518 | inactive: last_dir resets to neutral and nothing is emitted; active: the direction is Classify and the request is Emission of the displacement (dx forced to 0 when horizontal is off); the direction is notified iff it differs from last_dir, and last_dir becomes it; no request and neutral within the dead zone; with horizontal off never left/right and scroll_x == 0 |
| Transform.VerticalTick | autoscroll_qt_v2.py:285-302 | the request depends only on the vertical displacement: VerticalEmission of pos.y - origin.y while active, none while inactive |
| Engine.Step | main.py:474-518 | a button event runs Click and emits its notification; a poll never touches the gesture or the overlay; an inactive poll emits nothing and resets last_dir in the two-axis copies; a direction notification comes first, differs from the old last_dir and becomes the new one |
| Engine.StepPoll | main.py:490-514 | a vertical-copy poll requests VerticalEmission of the vertical displacement while active and nothing otherwise, leaving the state alone; an active two-axis poll sets last_dir to Classify of the displacement, notifies it iff it changed, then requests Emission of the displacement |
| Engine.Trace | main.py:488-519 | a run emits at most two outputs per event |
| Engine.Dispatch | main.py:474-518 | delivering one event to the configuration object yields the state and outputs of Step; the tunables are untouched |
| Engine.ScrollSession | main.py:465-519 | running the click handler and the scroll loop over the events from last_dir neutral yields exactly Trace's final state and outputs; the tunables are untouched |
| Engine.StepNotifications | main.py:474-506 | the overlay notifications of a step are the click handler's notification and its direction notifications are the leading DirectionChanged, if any |
| Engine.StepOverlay | main.py:474-486 | a step emits at most one overlay notification, exactly when the gesture flips, and hide exactly when it was active |
| Engine.StepDirection | main.py:504-506 | a poll during a gesture either notifies nothing and keeps last_dir, or notifies a new last_dir different from the old one |
| Engine.TraceAppend | main.py:488-519 | running two event sequences in turn is running their concatenation |
| Engine.IdleUntilMiddlePress | main.py:474-518 | without a middle press an idle engine stays idle with its origin unchanged and emits nothing |
| Engine.CancelThenSilence | main.py:483-486 | a left or right press during a gesture emits exactly one hide, and then nothing until the next middle press |
| Engine.OverlayAlternates | main.py:474-486 | over any run the overlay is told show and hide alternately, and the gesture ends active iff an odd number of notifications flipped the start state |
| Engine.PollExtendsDirections | main.py:504-506 | one more poll during a gesture keeps the direction notifications free of repeats and last_dir equal to the last one notified |
| Engine.DirectionsNeverRepeat | mac/autoscroll_mac_ultimate.py:555-562 | during a gesture of a two-axis copy no direction is notified twice in a row, the first one differs from last_dir, and last_dir ends as the last one notified |
| Presets.Initial | main.py:240-241 | the table starts with only "默认", holding the record of the current tunables, and "默认" is current |
| Presets.SelectPreset | main.py:442-446 | an unknown name changes nothing; a known name becomes current and its record is loaded key by key with defaults for missing keys; the tunables are exactly what from_dict leaves, start_minimized included |
| Presets.SaveNew | main.py:417-421 | a confirmed non-empty name inserts or overwrites only that key with to_dict of the tunables and makes it current; a cancel or an empty name changes nothing |
| Presets.Delete | main.py:429-440 | "默认" is refused with nothing changed; a missing name fails with KeyError before any change; otherwise exactly that key is removed, "默认" becomes current and is loaded; "默认"'s record survives every delete |
| Presets.LoadFile | main.py:255-265 | no file changes nothing; otherwise the table is the file's, or a fresh "默认" record, and last_used (default "默认") is selected only if it is a key of the new table, its record then loaded over the old tunables; otherwise the current name and the tunables stay |
| Presets.ApplyPreservesValid | main.py:417-453 | save, select and delete keep "默认" in the table and the current name a key of it |
| Presets.UiOpsPreserveValid | main.py:417-453 | so does every sequence of them |
| Presets.LoadFileValid | main.py:255-265 | a file load from the start-up state keeps the table valid when the file's table has "默认" |
| Presets.SaveThenSelect | mac/autoscroll_mac_ultimate.py:466-504 | selecting the preset just saved restores exactly the saved state |
| Presets.DeleteKeepsOthers | mac/autoscroll_mac.py:394-409 | deleting one name leaves every other preset's record as it was |
| Presets.PresetManager.constructor | main.py:240-241 | the window's table and current name are Initial of the configuration's tunables |
| Presets.PresetManager.SaveNewPreset | main.py:417-421 | the new table, current name and tunables are SaveNew of the old ones |
| Presets.PresetManager.LoadSelectedPreset | main.py:442-453 | the new state is SelectPreset of the old one; the gesture fields are untouched |
| Presets.PresetManager.DeletePreset | main.py:429-440 | the new state and the outcome are Delete of the old state; the gesture fields are untouched |
| Presets.PresetManager.LoadPresetsFromFile | main.py:255-265 | the new state is LoadFile of the old one and the parsed file; the gesture fields are untouched |

## Left out

- The Qt user interface is not modelled: widgets, sliders and their integer scaling, arrow drawing, the help dialog, the tray icon, overlay placement and the preview timer. The overlay is reduced to the show, hide and direction notifications it receives.
- The combo box refresh in the preset operations is left out. It is presentation only.
- The feedback from the settings widgets is not modelled. load_selected_preset writes the loaded values into the spin boxes and check boxes (main.py:447-452), and their change signals write back into the configuration (main.py:356-368, main.py:379). A spin box clamps to its range and rounds to its decimals, so after a load the configuration can differ from the record. The model leaves the configuration exactly as from_dict sets it.
- The tunables are fixed for a whole run of `Trace` and `ScrollSession`. In the program the settings widgets can change them at any moment between two loop iterations (main.py:356-368). A run that crosses such a change is two runs, one per set of tunables.
- AutoStartManager is not modelled. Its plist and registry writes are operating-system I/O.
- The JSON reading and writing of the configuration file is not modelled, including every call to save_presets_to_file. This is file I/O. `LoadFile` starts from the parsed file, and an unreadable file is `None`.
- The pynput listener and controller are not modelled. Each pointer position the loop reads is a `Poll` event, and each call to `scroll` is a `Scrolled` output.
- Threads and the 10 ms / 50 ms sleeps are not modelled. The two threads share the configuration object, and their interleaving is a sequence of events, each one atomic.
- Some failures are not modelled. The bare `except` around the loop body is modelled only for the division by zero at the origin. A failing pointer query or scroll call is not modelled.
- Floating point is not modelled: all arithmetic is on reals. `math.pow` and `math.hypot` are parameters, with only the facts each property needs.
- JSON values other than numbers and booleans are not modelled.
- DictTunables: approximates from_dict, which stores the raw JSON value. The model coerces a boolean under a numeric key to 1.0 or 0.0, and a number under a boolean key to its truthiness.
- The mac/autoscroll_mac.py record has no start_minimized, and that copy's configuration has no such field. The model keeps the field and leaves it untouched.
- The configuration of autoscroll_qt_v2.py has no enable_horizontal or overlay_size field. The vertical loop never reads them.
- overlay_size only sizes the overlay (autoscroll_xy_axis.py:265 reads it to place the overlay). The engine's scrolling never uses it; it is stored and loaded with the other tunables.
- Presets.LoadFile: a file whose table lacks "默认", or whose last_used is not in it, leaves a current name that may not be a key of the table. This matches the code, and `LoadFileValid` names the condition under which the table stays valid.
