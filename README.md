# Knob volume dispatcher of the one_knob macro pad

The firmware of a one-knob USB HID macro pad turns knob events into USB
consumer-control reports. A knob event arrives as an integer code: 0 is a left
turn, 1 a right turn and 4 is `KNOB_ZERO`. The handler acts only while the UI
shows screen 1 and while its debounce flag is clear. A left turn raises the
module's volume level by 5 and a right turn lowers it by 5, clamped into
[0, 100]. Unless the level is already at that bound, each sends Volume
Increment (0xE9) or Volume Decrement (0xEA); at the bound nothing is sent.
Code 4 (`KNOB_ZERO`) always sends Mute (0xE2) and leaves the level alone. The
level starts at 50. Each report goes out as a press on report ID 3, followed
after a settle delay by a release carrying usage 0. A keyboard counterpart is
present but not called: it sends a six-slot keycode buffer with the code in
slot 0 and modifier 0, and then a release.

The project has three modules:

- `HidReports` (`hid_reports.dfy`) defines the report values and the report
  IDs and usage codes. Those codes are the Consumer page (0x0C) usages of the
  USB HID Usage Tables 1.12, section 15. The module also defines the press and
  release pairs of the two send helpers and `WellPaired`, which says a trace
  is made only of press/release pairs. Its lemmas show that such a trace
  releases every press immediately and never has two presses without a release
  between them.
- `VolumeControl` (`volume_control.dfy`) specifies the handler on values.
  `NextVolume` and `Usage` give the level and the report for one event.
  `Handle` gives one whole call on a `KnobState`, which holds the level, the
  debounce flag, the screen id and the reports sent so far. `Run` folds
  `Handle` over a sequence of events, and the lemmas about `Run` cover any
  sequence of events from power-up.
- `AppFeatures` (`app_features.dfy`) is the dispatcher as the firmware runs
  it. The class `KnobDispatcher` has fields for the module statics
  `volume_level` and `volume_debounce`, and for the UI's `HF_ui_screen_id`.
  Its ghost field `sent` records every report handed to the USB stack.
  `ProcessKnobEvent` follows the C handler statement by statement. Its
  postcondition ties the new state to `VolumeControl.Handle` of the old one,
  so every property proved about `Handle` and `Run` holds of the class.

Points of the handler's behaviour worth knowing:

- The debounce is a boolean flag, set and cleared inside the same call.
  So an event is dropped only when the flag is already set on entry, and a
  sequential caller never sees it set. `Handle` and `RunDebounced` state
  exactly that.
- From power-up the level starts at 50 and moves by 5 between the bounds
  0 and 100, so every level it reaches is a multiple of 5 (`FromPowerUp`).
  On those levels an accepted turn changes the level by exactly 5 when it
  sends a report and by 0 otherwise (`ExactStep`). The clamps after the
  step only matter for levels power-up cannot reach, such as 98
  (`ClampAtMaximum`).
- The keyboard macro sender is never called. It is modelled as the unused
  helper it is.
- The left turn raises the volume and the right turn lowers it.
- `Run` keeps the screen id fixed for a whole sequence of events. Runs in
  which the UI switches screens between events are covered by the class:
  `KnobDispatcher.Valid()` (level in [0, 100], trace well paired) holds after
  every `ProcessKnobEvent` that starts from a valid state, whatever value
  `screenId` was given before the call.

## Model

| member | source | states |
|---|---|---|
| HidReports.ConsumerPair | main/app/app_features.c:99-112 | a consumer-control send is a press on report ID 3 carrying the usage, followed by the release of the same channel (usage 0); the press is itself a release only for usage 0 |
| HidReports.KeyboardPair | main/app/app_features.c:83-97 | a keyboard send is a press on report ID 1 with modifier 0, the code in slot 0 and zeros in slots 1-5, followed by the release of the same channel (modifier 0, null buffer) |
| HidReports.ReleaseOf | main/app/app_features.c:96-110 | the release report stays on the channel (kind and report ID) of the report it releases |
| HidReports.ConsumerPairPaired | main/app/app_features.c:99-112 | one consumer-control send is a well-paired trace on its own |
| HidReports.KeyboardPairPaired | main/app/app_features.c:83-97 | one keyboard send is a well-paired trace on its own |
| HidReports.PairedAppend | main/app/app_features.c:83-112 | appending well-paired sends to a well-paired trace keeps it well paired |
| HidReports.PairedAt | main/app/app_features.c:83-112 | in a well-paired trace each report at an even position is immediately followed by its channel's release, and each report at an odd position is a release |
| HidReports.PressImmediatelyReleased | main/app/app_features.c:99-111 | every press in a well-paired trace is immediately followed by the release of its own channel |
| HidReports.PressesSeparated | main/app/app_features.c:83-112 | no two presses in a well-paired trace occur without a release between them |
| VolumeControl.NextVolume | main/app/app_features.c:131-151 | a left turn never lowers the level and a right turn never raises it; from inside [0, 100] they give min(v+5, 100) and max(v-5, 0); the level changes by at most 5, stays in [0, 100], and any other code leaves it alone |
| VolumeControl.Usage | main/app/app_features.c:131-155 | Mute is sent exactly for code 4; Volume Increment exactly for a left turn below 100; Volume Decrement exactly for a right turn above 0; nothing is sent exactly when the code is not 4 and the level does not change |
| VolumeControl.Emitted | main/app/app_features.c:131-155 | an event sends either nothing or exactly one consumer-control press/release pair for its usage, and the result is well paired |
| VolumeControl.Initial | main/app/app_features.c:67-70 | at power-up the level is 50, inside [0, 100], the debounce flag is clear and nothing has been sent |
| VolumeControl.Handle | main/app/app_features.c:114-161 | off screen 1, or with the debounce flag set, a call changes nothing; an accepted call leaves the flag clear and only appends to the trace; left below 100 sets min(v+5, 100) and sends one increment pair; right above 0 sets max(v-5, 0) and sends one decrement pair; code 4 sends one mute pair and keeps the level; left at 100, right at 0 and unknown codes send nothing and keep the level; the range and the pairing of the trace are preserved |
| VolumeControl.RunInRange | main/app/app_features.c:131-151 | a level inside [0, 100] stays inside it after any sequence of events |
| VolumeControl.RunPaired | main/app/app_features.c:99-161 | a well-paired trace stays well paired after any sequence of events |
| VolumeControl.RunOffScreen | main/app/app_features.c:116-120 | off screen 1, no sequence of events changes the level, the flag or the trace |
| VolumeControl.RunDebounced | main/app/app_features.c:122-125 | with the debounce flag set, no sequence of events changes anything |
| VolumeControl.ExactStep | main/app/app_features.c:131-151 | from a level in [0, 100] that is a multiple of 5, an accepted turn that sends Volume Increment raises the level by exactly 5, one that sends Volume Decrement lowers it by exactly 5, and any other call leaves it alone; the level stays a multiple of 5 in [0, 100] |
| VolumeControl.RunOnGrid | main/app/app_features.c:131-151 | a level in [0, 100] that is a multiple of 5 stays so after any sequence of events |
| VolumeControl.FromPowerUp | main/app/app_features.c:67-161 | from power-up, after any sequence of events, the level is inside [0, 100] and a multiple of 5, and the trace is made of press/release pairs |
| VolumeControl.ClampAtMaximum | main/app/app_features.c:131-139 | at 98, a level off the grid that power-up cannot reach, a left turn clamps the level at 100 and sends one increment pair; a second left turn sends nothing |
| AppFeatures.KnobDispatcher.constructor | main/app/app_features.c:67-70 | the statics start as level 50 with the flag clear, on the screen the UI shows, with nothing sent |
| AppFeatures.KnobDispatcher.SendHidMacro | main/app/app_features.c:83-97 | fills a zeroed six-slot keycode buffer in place with the code in slot 0, and appends exactly that keyboard press and its release to the trace |
| AppFeatures.KnobDispatcher.SendConsumerControl | main/app/app_features.c:99-112 | appends exactly the consumer-control press carrying the usage and its usage-0 release to the trace |
| AppFeatures.KnobDispatcher.ProcessKnobEvent | main/app/app_features.c:114-161 | the new level, flag and trace are those `Handle` gives for the old state and the event, so the level stays in [0, 100] and the trace stays well paired |

## Left out

- USB descriptor tables and the TinyUSB callbacks (main/app/app_features.c:14-64) are left out. They are constant byte arrays and three callbacks: one returns the report descriptor, one returns 0 and one does nothing.
- `app_features_init` (main/app/app_features.c:163-194) is left out. It only configures GPIO and installs the USB driver through vendor calls.
- The `vTaskDelay` settle and debounce waits are left out. The model keeps the order of reports and flag updates, not durations.
- The `ESP_LOGI` log lines are left out, because they only produce output.
- The USB stack itself is left out. The model records the arguments given to `tud_hid_report` and `tud_hid_keyboard_report`, not the bytes on the wire. How the stack reads a null keycode buffer (all keys released) and the byte order of the 16-bit usage are not modelled. Their return values are ignored by the firmware and are not modelled either.
- `HF_ui_screen_id` is written by the UI, which is not part of this model. It is a public field of `KnobDispatcher` that a client may assign between calls.
- Concurrent calls of the handler are left out. The debounce flag only matters when it is set on entry, and that behaviour is kept.
- main/app/tmp.c and main/app/tmp2.c are left out, because every line of them is commented out. The same goes for main/app/app_features.h, which holds declarations only.
- A timestamp-based debounce and a button-to-macro mapping are not modelled, because neither exists in the compiled code.
