# dragman: drag-lock gesture daemon, modelled in Dafny

dragman watches libinput for a touchpad, opens it with libevdev and turns one
gesture into a held left button on a uinput virtual pointer. The gesture is an
anchor finger on slot 0, then, more than 200 ms later, a quick tap (under 100 ms)
on slot 1. The next lift of any finger releases the button.

This project models the decision logic of `main.c`:

- `U64` (`u64.dfy`): C's unsigned 64-bit subtraction, which the gesture test uses.
- `Clock` (`clock.dfy`): `get_ms`, milliseconds from the nanosecond clock.
- `InputCodes` (`input_codes.dfy`): the Linux event types and codes the daemon uses.
- `VirtualPointer` (`virtual_pointer.dfy`): `virtual_pointer_send`, the two events it
  writes, a decoder for the written log, and the uinput device as an object whose
  event log grows.
- `Gesture` (`gesture.dfy`): `handle_touchpad` as a specification. `Step` handles one
  event and `Run` handles a sequence. Lemmas cover the alternation of button values,
  the unsigned wrap-around, the anchor kept after a failed attempt, and the basic
  scenarios.
- `GestureEngine` (`gesture_engine.dfy`): the same loop as a class. It updates
  `firstPressTime`, `secondPressTime` and `dragging` in place and writes to the
  virtual pointer. Each method is proved against `Step` and `Run`.
- `Discovery` (`discovery.dfy`): the first-match scan of `handle_li`. `Scan` is the
  specification, `ScanQueue` is the loop, and `Watcher.HandleLi` applies the result
  to the touchpad and watcher fields.
- `Startup` (`startup.dfy`): `main` up to the gesture loop. Discovery runs over
  successive readiness rounds, and then the daemon either exits with status 1 or
  serves the touchpad.

Every clock reading is an input. Each event carries the `uv_hrtime` value taken
while it is handled, and the model applies `get_ms` to it.

The hold gap `second - first` and the tap duration `now - second` are `uint64_t`
differences. They are modelled modulo 2^64. Because of this, a slot-1 press older
than the latest slot-0 press always passes the hold-gap test: the difference wraps
to a huge value. `Gesture.EarlierSecondPressStartsDrag` states the consequence.
The model keeps this behaviour, as it keeps the anchor after a failed attempt.

Three details of `main.c` that the model keeps:

- Timestamps are never "unset". They start at 0 and are reset to 0 after a
  recognised gesture, and the 0 takes part in the unsigned differences. So from the
  zeroed state, a lone slot-1 tap pressed more than 200 ms into the clock and lifted
  within 100 ms starts a drag with no slot-0 press at all
  (`Gesture.LoneSecondPressStartsDrag`).
- Discovery stops on an event that is not `DEVICE_ADDED`. A drained queue does not
  end discovery: the watcher stays active and waits for more events.
- A selected device whose node cannot be opened gives the same exit status 1 as
  "no touchpad found".

## Model

| member | source | states |
|---|---|---|
| U64.Sub | main.c:127-129 | the result is the unique value in [0, 2^64) that, added to the subtrahend, gives the minuend modulo 2^64; it equals the plain difference when that is non-negative and 2^64 minus the deficit otherwise |
| U64.SubIsResidue | main.c:127-129 | the wrapped difference is the mathematical residue of `a - b` modulo 2^64 |
| Clock.GetMs | main.c:100 | the result is the whole number of milliseconds in the nanosecond reading (floor), and never exceeds `(2^64 - 1) / 10^6` |
| Clock.GetMsMonotone | main.c:100 | a later nanosecond reading never yields an earlier millisecond value |
| VirtualPointer.Frame | main.c:94-98 | one send writes exactly two events: `EV_KEY`/`BTN_LEFT` with the value, then `EV_SYN`/`SYN_REPORT`/0 |
| VirtualPointer.Frames | main.c:94-98 | the log written for a sequence of sends has exactly two events per send |
| VirtualPointer.FramesLayout | main.c:94-98 | in that log, send number i is the `EV_KEY`/`BTN_LEFT` event with its value at position 2i, followed by the sync report at 2i + 1 |
| VirtualPointer.Device.constructor | main.c:86-88 | a freshly created uinput device has had nothing written to it |
| VirtualPointer.DecodeFrames | main.c:94-98 | reading the log written for any sequence of button values gives back exactly those values, in order |
| VirtualPointer.Device.Send | main.c:94-98 | the device's event log grows by exactly the two events of one frame |
| Gesture.Step | main.c:107-135 | events that are not `EV_ABS`/`ABS_MT_TRACKING_ID` change nothing and send nothing; a press on slot 0 or 1 records the current millisecond time in that slot's field, a press elsewhere changes nothing, and no press sends or touches `dragging`; any lift while dragging sends one button-up and only clears `dragging`; a lift while not dragging sends button-down exactly when it is on slot 1 and the hold gap mod 2^64 exceeds 200 and the tap duration mod 2^64 is below 100, and then both times become 0 and `dragging` true; otherwise nothing changes; recorded times stay within the clock's range |
| Gesture.Run | main.c:105-137 | handling a sequence of events sends at most one button value per event, and keeps recorded times within the clock's range |
| Gesture.DraggingIffLastSentDown | main.c:122-133 | under the engine's invariant, `dragging` holds exactly when the last button value sent was 1 |
| Gesture.StepConsistent | main.c:122-133 | one event keeps the invariant: values sent alternate 1, 0, 1, ... and `dragging` holds exactly after an odd number of sends |
| Gesture.RunConsistent | main.c:105-137 | any sequence of events keeps the same invariant |
| Gesture.ButtonValuesAlternate | main.c:102-141 | from the zeroed state, over any events, the values sent alternate 1, 0, 1, ... starting with 1, and `dragging` ends true exactly when the last value sent was 1 |
| Gesture.EarlierSecondPressPassesHoldGap | main.c:127-130 | when the slot-1 press time is older than the slot-0 press time, the unsigned hold gap wraps and always exceeds 200 |
| Gesture.EarlierSecondPressStartsDrag | main.c:125-134 | such a state starts a drag on any slot-1 lift within 100 ms of the slot-1 press |
| Gesture.LoneSecondPressStartsDrag | main.c:111-134 | from the zeroed state, a slot-1 press after 200 ms on the clock, lifted within 100 ms, sends button-down and leaves `(0, 0, dragging)` with no slot-0 press, because the zero start time takes part in the hold gap |
| Gesture.StaleAnchorIsReused | main.c:125-135 | after a slot-1 tap that was too slow, a later quick slot-1 tap starts a drag using the same slot-0 press, with no new anchor |
| Gesture.AttemptOutcome | main.c:111-134 | for anchor, slot-1 press and slot-1 lift in time order from the zeroed state, button-down is sent exactly when the press is over 200 ms after the anchor and the lift under 100 ms after the press; otherwise nothing is sent and both times are kept |
| Gesture.LiftEndsDragOnce | main.c:122-124 | after a recognised gesture, a lift on any slot at any time sends one button-up, and a further lift on any slot sends nothing more |
| Gesture.NoCommandWithoutLift | main.c:111-119 | events without a lift (repeated presses included) never send anything and never change `dragging` |
| GestureEngine.Engine.constructor | main.c:141 | the engine starts from the zeroed state with nothing sent, on a pointer with an empty log |
| GestureEngine.Engine.HandleEvent | main.c:107-136 | the fields become those `Gesture.Step` gives for the old fields and the event, the values sent grow by what `Step` sends, and the pointer log stays the frames of all values sent, which alternate |
| GestureEngine.Engine.HandleTouchpad | main.c:102-138 | the fields become those `Gesture.Run` gives for the old fields and all events, the values sent grow by what `Run` sends, and the invariant holds |
| Discovery.Scan | main.c:48-57 | `Selected(i)`: event i is an added device with non-zero tap finger count and every earlier event is an added device without; `Aborted(i)`: event i is not a device addition and every earlier event is an added device without tap; `Continue`: every event is an added device without tap |
| Discovery.ScanUnique | main.c:48-57 | any outcome meeting the contract of `Scan` is the outcome of `Scan`, so the contract fully determines it |
| Discovery.ScanIgnoresRest | main.c:48-56 | once the scan stops, events after the stopping one do not influence it |
| Discovery.FirstTapDeviceWins | main.c:48-53 | a device without tap support followed by one with it selects the second, whatever follows |
| Discovery.ScanQueue | main.c:46-58 | the loop with early exits returns exactly the outcome of `Scan` |
| Discovery.Watcher.constructor | main.c:141-150 | no touchpad is held and the libinput watcher is active |
| Discovery.Watcher.HandleLi | main.c:40-68 | a failed dispatch changes nothing; otherwise the watcher stops exactly when the scan selects or aborts, and the touchpad field is set to the selected device exactly when it was selected and could be opened |
| Startup.Opened | main.c:60-65 | a touchpad left by discovery always has a non-zero tap finger count |
| Startup.Discover | main.c:148-153 | discovery stops with the touchpad left by the round that ends it, that round being the first to end it (no earlier round stops the watcher), and stays active exactly when no round ends it |
| Startup.AfterDiscovery | main.c:154-165 | `main` exits exactly when no touchpad was opened or the virtual pointer was not created, always with status 1; otherwise it serves the opened touchpad |
| Startup.Start | main.c:140-165 | `main` is still discovering exactly when no round ends discovery; otherwise its outcome is decided by what the first round that ends discovery opened: exit with status 1 when that round opened nothing (no device selected, or the node could not be opened) or the virtual pointer was not created, and otherwise serving exactly that device, which supports tapping |
| Startup.NoTapDeviceExitsOne | main.c:154-158 | with no tap-capable device reported, `main` either is still discovering or exits with status 1 |
| Startup.RunStartup | main.c:140-165 | driving `handle_li` round by round until its watcher stops gives exactly the outcome `Start` specifies |

## Left out

- libinput and udev context and seat setup, and the `open_restricted` and `close_restricted` callbacks (main.c:25-38, 143-145): operating-system plumbing.
- The libuv loop, poll watchers and `uv_run` (main.c:147-153, 167-172): stopping the libinput watcher is the `active` field. A readiness round is one call of `handle_li`.
- `create_virtual_pointer` (main.c:70-92): capability setup only. Its success is the `pointerCreated` parameter.
- Building `/dev/input/<sysname>`, `open` and `libevdev_new_from_fd` (main.c:60-65): file I/O. Their joint success is the `openOk` parameter of a round.
- Reading with `libevdev_next_event` and `libevdev_get_current_slot` (main.c:105-110): the model takes the events read with success, already decoded, with the slot current for each. Read statuses other than success end the loop and are not modelled.
- `libinput_dispatch` (main.c:43): only its success or failure is modelled. After a failure the model reads no events; events queued by a partly failed dispatch are not modelled.
- `uv_hrtime` (main.c:100): each event carries the reading as an input. Monotonicity is not assumed.
- The messages printed by `main`, and the second `uv_run` returning 0 (main.c:155, 157, 163, 172-174): `Serving` stands for the gesture loop, which has no normal end.
- Libinput events that are never destroyed in `handle_li`: resource leaks, not behaviour.
