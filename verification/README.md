# OBS MIDI client and countdown overlay: a Dafny model

This project models the decision logic of two OBS Studio scripts.

- **MIDI client** (`obsMidiClient.py`):
  - `onMidi` classifies an incoming message by its status byte.
  - `testInput` hands the event `(cmdType, channel)` to every registered handler.
  - The transition handler maps a channel to a scene index and starts a transition.
  - The recording handler maps four configured channels to start, stop, pause and unpause.
  - `openPort` and `close` manage the single MIDI input.
  - `script_update` and `script_unload` make sure at most one client instance exists.
- **Countdown overlay** (`obsCountdown.py`):
  - `script_update` builds the target `datetime.time`.
  - `format_time` renders the remaining time, or the stop text once the target has passed.
  - `timer_callback` pushes that text into the named text source.

Calls into OBS and into the MIDI library are not executed. They become returned values:
- `MidiHandlers.Action`: start/stop/pause/unpause recording, start a transition, or a report.
- `MidiConnection.PortCall`: close a port, or open an input.
- `Countdown.TextUpdate`: a text pushed into a source.

What the scripts read from the host becomes a parameter: the paused flag, the number of scenes, whether opening a port succeeds, whether a source of the given name exists, and the current time of day, as whole seconds since midnight rounded up to the next whole second.

Files:
- `wrappers.dfy`: `Option`.
- `midi_handlers.dfy`: the handlers.
- `midi_dispatch.dfy`: the classifier and the fan-out.
- `midi_connection.dfy`: the port state machine and the settings hooks.
- `countdown.dfy`: the countdown script.

Behaviour of the code worth knowing, which the model keeps as written:
- `onMidi` compares the status byte with exactly 144 and 176 and does not mask off the channel nibble. So a Note On or Control Change on any MIDI channel but the first is dropped (`MidiDispatch.OtherChannelsDropped`).
- `format_time` tests `now > end_date`. So `00:00` shows during the last second up to the target, and the stop text from any instant after it (`Countdown.FormatTimeAtTarget`, with `now` the time rounded up to a whole second).
- A failed or empty `openPort` request for a new name never leaves a connection, whatever the state. Resetting the port name to empty needs a handle to exist, which holds in every consistent state (`MidiConnection.Consistent`). `close` drops the handle but keeps `currentMidiPort`. A closed instance asked for the same port again therefore treats it as already open and stays disconnected (`MidiConnection.ReopenAfterCloseStaysClosed`). `script_update` never reuses a closed instance, so this does not show in practice.
- After `openPort` closes an old port it keeps the closed object in `midiin`, rather than setting it to `None`. The model keeps this as `PortHandle(false)`.
- The transition handler's guard `num > len(scenes)` lets the number equal to the scene count through, and `scenes[num]` then raises IndexError. That exception leaves `testInput`'s loop, so the handlers after it never run. The as-written members (`HandleTransitionAsWritten`, `HandleMidiAsWritten`, `TestInputAsWritten`) keep this behaviour. `HandleTransition`, `HandleMidi`, `TestInput` and `OnMidi` use the corrected guard `num >= len(scenes)` (see "## Findings").

## Model

| member | source | states |
|---|---|---|
| `MidiHandlers.HandleRecording` | obsMidiClient.py:15-40 | On a type mismatch, or a channel outside the four configured ones, the result is no action. Otherwise the first matching role wins, in the order start, end, pause, unpause. Pause acts only when not paused and unpause only when paused; the other case is the matching report. |
| `MidiHandlers.RecordingEventIdempotent` | obsMidiClient.py:29-40 | Handling any recording event a second time leaves the paused flag as the first time left it. Two pauses equal one pause, and two unpauses equal one. |
| `MidiHandlers.RedundantRequestsAreNoOps` | obsMidiClient.py:29-40 | A pause request while paused gives `AlreadyPaused` and the flag stays set. An unpause request while not paused gives `NotPaused` and the flag stays clear. |
| `MidiHandlers.RunRecording` | obsMidiClient.py:15-40 | A run of events gives one action per event, each a recording action. An event gives no action exactly when its type differs or its channel is none of the four configured ones. |
| `MidiHandlers.RunRecordingThreadsFlag` | obsMidiClient.py:29-40 | Over any run of events, each event is handled with the paused flag the earlier actions left. So a pause request is only ever issued to an unpaused host, and an unpause request only to a paused one. |
| `MidiHandlers.RecordingExample` | obsMidiClient.py:15-40 | With start=1, stop=2, pause=3, unpause=4, the notes 1,3,3,4,4 give start, pause, already-paused, unpause, not-paused. |
| `MidiHandlers.RestartedRecordingPauses` | obsMidiClient.py:15-40 | After pause, stop and start, the recording is not paused, so the next pause note issues a pause request rather than the already-paused report. |
| `MidiHandlers.TransitionAsWritten` | obsMidiClient.py:57-66 | The guard as written: numbers above the scene count are reported invalid, and numbers below it start a transition. The number equal to the count raises IndexError. |
| `MidiHandlers.Transition` | obsMidiClient.py:61-66 | Corrected guard: a transition starts exactly when the number is a valid index, to that scene, with the duration unchanged. Otherwise the number is reported invalid. |
| `MidiHandlers.TransitionOffByOne` | obsMidiClient.py:61-66 | At number equal to the scene count, the code as written raises and the corrected guard reports the number invalid. |
| `MidiHandlers.TransitionGuardsAgree` | obsMidiClient.py:61-66 | The written and corrected guards give the same result exactly when the number differs from the scene count. |
| `MidiHandlers.HandleTransition` | obsMidiClient.py:49-66 | Corrected guard. No action exactly on a type mismatch or a channel below the first address. A transition starts exactly when `channel - transitionFirst` is a valid scene index, to that scene, with the configured duration. Any other number is reported invalid. |
| `MidiHandlers.HandleTransitionAsWritten` | obsMidiClient.py:49-66 | The handler as written raises IndexError exactly on a type match with `channel - transitionFirst` equal to the scene count. In every other case it does what the corrected handler does. |
| `MidiHandlers.TransitionExample` | obsMidiClient.py:49-55 | With first address 10, channel 12 starts a transition to scene 2 with the configured duration. Channel 9 is ignored. |
| `MidiHandlers.HandleMidi` | obsMidiClient.py:104-105 | Corrected guard. `handler.handleMidi` dispatches to the handler's own kind: a transition handler behaves as `HandleTransition` and a recording handler as `HandleRecording`. Either kind ignores events of another type. A transition handler never moves the paused flag, and each kind only produces its own actions. |
| `MidiHandlers.HandleMidiAsWritten` | obsMidiClient.py:49-66 | As written, a handler raises exactly when it is a transition handler, the type matches and the channel is the first address plus the scene count. Otherwise it gives the corrected handler's action. |
| `MidiDispatch.Classify` | obsMidiClient.py:113-118 | An event is produced exactly for status 144 ("Note") or 176 ("CC"). Its channel and value are the two data bytes, unchanged. |
| `MidiDispatch.ClassifyIsFirstChannelOnly` | obsMidiClient.py:113-118 | Compared with classifying by the high nibble, `onMidi` accepts exactly the Note On and Control Change statuses whose channel nibble is 0. It gives them the same type tag. |
| `MidiDispatch.OtherChannelsDropped` | obsMidiClient.py:113-118 | Status 145 and 177 give no event. Status 144 and 176 give Note and CC events. |
| `MidiDispatch.TestInput` | obsMidiClient.py:100-105 | Corrected guard. Every handler is called exactly once, in list order, with the event's type and channel, and never with the value. Each handler sees the paused flag as the earlier handlers' actions left it. |
| `MidiDispatch.TestInputAsWritten` | obsMidiClient.py:100-105 | As written, the loop is cut short exactly when a handler raises, and then no action follows. The handler it stopped at is a transition handler whose type matches and whose first address plus the scene count equals the channel. |
| `MidiDispatch.TestInputAsWrittenRunsAsCorrected` | obsMidiClient.py:100-105 | As written, every handler that ran completed without raising, and did what it does in `TestInput`, with the paused flag the earlier actions left. So up to the handler that raises, the run is the corrected one. |
| `MidiDispatch.RunsAsCorrectedCons` | obsMidiClient.py:100-105 | A handler that completes, followed by a run that holds from the flag it leaves, is a run that holds from the starting flag. |
| `MidiDispatch.RecordingSkippedAfterRaise` | obsMidiClient.py:100-105 | With first address 0, three scenes and start recording on channel 3, a CC on channel 3 raises as written and recording never starts. With the corrected guard the scene is reported invalid and recording starts. |
| `MidiDispatch.OnMidi` | obsMidiClient.py:113-118 | Corrected guard. A status other than 144 or 176 calls no handler and leaves the paused flag alone. Otherwise the event is fanned out to every handler, as in `TestInput`. |
| `MidiConnection.OpenPort` | obsMidiClient.py:81-98 | Asking for the current name changes nothing and calls nothing. For a different name, `close_port` is called exactly when a handle exists, and then first, and the name is reset. An open is attempted exactly for a non-empty name, as the last call. So there is one call per existing handle plus one per non-empty name. A successful open records the asked name. A failed open never leaves a connection. When an empty name or a failed open follows a close, the closed object stays in `midiin` and the name is empty. Without a handle, an empty name or a failed open leaves the instance unchanged. Consistency is preserved. |
| `MidiConnection.OpenPortsConsistent` | obsMidiClient.py:81-98 | Any run of `openPort` requests from a consistent state stays consistent. Afterwards the port name is either the last one asked for or empty. |
| `MidiConnection.Close` | obsMidiClient.py:107-111 | Afterwards there is no handle and no connection, and the port name is unchanged. `close_port` is called exactly when a handle existed. |
| `MidiConnection.CloseIdempotent` | obsMidiClient.py:107-111 | A second `close` changes nothing and calls nothing. |
| `MidiConnection.ReopenAfterCloseStaysClosed` | obsMidiClient.py:81-111 | Asking a closed instance for the port it last had is treated as already open, and it stays disconnected. |
| `MidiConnection.NewMidi` | obsMidiClient.py:74-79 | A new instance is consistent and keeps the given handlers and logging switch. It is connected exactly when the port name is non-empty and the open succeeds, and then under that name. An instance that did not connect holds no handle and no name. |
| `MidiConnection.NewMidiCalls` | obsMidiClient.py:74-79 | A new instance makes one open call for a non-empty port name, and no call for an empty one. |
| `MidiConnection.BuildHandlers` | obsMidiClient.py:169-182 | The handler list is a transition handler followed by a recording handler. Each field comes from its own setting: the types, the transition address and duration, and the start, stop, pause and unpause addresses. |
| `MidiConnection.ScriptUpdate` | obsMidiClient.py:161-182 | Exactly one instance exists afterwards, with the configured handlers, and it is consistent. It is connected exactly when the device name is non-empty and the open succeeds, and then to that device. An old instance's handle is closed by the very first call. No port is closed after one is opened. The only open call is the last call, for the configured device. At no point are two inputs live, and the live count afterwards is that of the new instance. |
| `MidiConnection.CloseThenOpenCalls` | obsMidiClient.py:161-182 | The calls of `script_update`: a close first exactly for an old handle, an open last exactly for a non-empty device and naming it, no close after an open, and nothing else. |
| `MidiConnection.CloseThenOpenLive` | obsMidiClient.py:161-182 | Starting with at most the old handle's input open, those calls never have two inputs open at once. Afterwards one is open exactly when the device is non-empty and the open succeeded. |
| `MidiConnection.UpdateIsUnloadThenConstruct` | obsMidiClient.py:161-187 | A settings update is exactly an unload of the old instance followed by the construction of a new one: the same calls in that order and the new instance. |
| `MidiConnection.ScriptUnload` | obsMidiClient.py:184-187 | No instance remains. The only call is a single `close_port`, made exactly when the old instance held a handle. Afterwards no input is live. |
| `MidiConnection.HookStep` | obsMidiClient.py:161-187 | A single update or unload hook never has two inputs open and leaves open exactly the resulting instance's input. An unload leaves no instance, and an update leaves one with the configured handlers. |
| `MidiConnection.RunHooksSingleInput` | obsMidiClient.py:161-187 | Over any sequence of settings updates and unloads, at most one MIDI input is live at any point. The number live at the end matches the last instance: one when it is connected, none otherwise. |
| `Countdown.MakeTime` | obsCountdown.py:43-47 | A time is built exactly for hour 0-23, minute 0-59 and second 0-59, with those fields. Otherwise the constructor raises. |
| `Countdown.MakeTimeRoundTrip` | obsCountdown.py:43-47 | A time passes through the constructor unchanged exactly when its fields are in range. |
| `Countdown.Decompose` | obsCountdown.py:68-73 | The fields recompose exactly: `h*3600 + m*60 + s == d`. Minutes and seconds stay within 0-59, and hours within 0-23 for less than a day. |
| `Countdown.DecomposeUnique` | obsCountdown.py:68-73 | Any split with minutes and seconds below 60 is the one `Decompose` computes. |
| `Countdown.SecondsDecompose` | obsCountdown.py:63-73 | Splitting a valid target's seconds since midnight gives back its hour, minute and second. |
| `Countdown.TwoDigits` | obsCountdown.py:75-77 | A number 0-99 renders as two decimal digits that read back as that number. |
| `Countdown.FormatTime` | obsCountdown.py:61-77 | Strictly after the target the result is exactly the stop text. Up to and including it, the result is a clock text that reads back as exactly the seconds left, 8 characters when at least an hour remains and 5 when less does. |
| `Countdown.RenderRemaining` | obsCountdown.py:68-77 | For less than a day, the rendered text has the `HH:MM:SS` shape (hour 1-23) or the `MM:SS` shape, with fields within range. It reads back as exactly the duration, and has the hour field exactly when at least an hour remains. |
| `Countdown.FormatTimeRoundTrip` | obsCountdown.py:61-77 | Up to and including the target, the countdown text is a clock text that reads back as exactly the seconds left. |
| `Countdown.FormatTimeAtTarget` | obsCountdown.py:65-77 | When `now` rounds up to the target, that is during the last second up to it, the text is `00:00`, not the stop text. |
| `Countdown.FormatTimeExamples` | obsCountdown.py:61-77 | For target 11:00:00: now 10:59:30 gives `00:30`, now 09:00:00 gives `02:00:00`, and now 11:00:01 gives the stop text. |
| `Countdown.UpdateSettings` | obsCountdown.py:42-52 | The timer restarts exactly when the fields form a valid time, and then all three settings are replaced. When the constructor raises, the settings stay as they were. Valid settings stay valid. |
| `Countdown.HourTwentyFourRejected` | obsCountdown.py:15-47 | Hour 24, which the property UI offers, is rejected, and the previous settings stay in force. |
| `Countdown.TimerCallback` | obsCountdown.py:79-91 | Nothing is pushed exactly when the source name is empty, no target is set, or no source of that name exists. Otherwise the formatted text goes to the named source. Past the target it is the stop text. Up to the target it is a clock text that reads back as exactly the seconds left. |
| `Countdown.InitialTickIsSilent` | obsCountdown.py:79-81 | Before the first settings update, a tick pushes nothing. |

## Left out

- OBS host calls are not modelled. This covers property and UI construction (`script_properties`, `script_defaults`, `script_description`), source enumeration and release, and `obs_source_update`. It also covers timer registration (`start_timer`, the countdown's `script_unload`) and the recording and transition primitives. They are replaced by returned values and parameters.
- MIDI device I/O is not modelled (`open_midiinput`, `get_ports`, `set_callback`). `close_port` and `open_midiinput` are recorded as `CallClosePort` and `CallOpenInput`, but the device I/O itself is not modelled. Whether an open succeeds is a boolean parameter. Only the failures the code catches are modelled: an exception other than EOFError or KeyboardInterrupt would propagate and is not represented.
- The MIDI library's callback thread, and any concurrency between it and reconfiguration, are not modelled. The model is sequential.
- `print` logging, including the `logMidiInput` switch, is not modelled. The switch is kept only as a field of the instance.
- Time is whole seconds since midnight. `datetime.now()` becomes the parameter `now`, which stands for the wall-clock time rounded up to the next whole second. That reading is exact: for a real time r and a whole-second target T, the floor arithmetic on `total_seconds()` gives T - ceil(r) seconds left, and r > T exactly when ceil(r) > T. Sub-second values themselves are not modelled.
- The host's answers are not modelled. The model assumes the host honours pause and unpause requests (`PausedAfter`). Stopping a recording clears the paused flag, since a stopped recording is not paused, and starting one leaves the flag as it was. Scenes are represented only by their count.
- MidiHandlers.HandleTransition: uses the corrected guard `num >= len(scenes)`. It does not raise at the number equal to the scene count, as the code does; `MidiHandlers.HandleTransitionAsWritten` states the written behaviour.
- MidiHandlers.HandleMidi: dispatches to the corrected transition handler; `MidiHandlers.HandleMidiAsWritten` states the written behaviour.
- MidiDispatch.TestInput: runs every handler with the corrected guard. As written, an IndexError in a transition handler ends the loop early; `MidiDispatch.TestInputAsWritten` and `MidiDispatch.TestInputAsWrittenRunsAsCorrected` state that.
- MidiDispatch.OnMidi: fans out through the corrected `TestInput`, so it does not show the early end of the loop either.
- Messages shorter than their status requires would raise IndexError in `onMidi`. The model excludes them with the `WellFormed` precondition.
- Velocity-scaled transition durations, channel-nibble masking and fuzzy port-name matching do not appear in these scripts and are not modelled.
- Timer truthiness: `not Settings.countdown_time` is true only for `None` (Python 3.5 and later treat midnight as true). The model treats only a missing target as unset.

## Findings

| source | as written | input that shows it | evidently intended | confidence | as-written member | corrected member |
|---|---|---|---|---|---|---|
| obsMidiClient.py:61 | `if num > len(scenes)` rejects only numbers above the scene count | 3 scenes, transition first address 0, event on channel 3: the guard passes, and `scenes[3]` raises IndexError instead of reporting an invalid scene | `num >= len(scenes)`: every out-of-range number is reported and skipped | high (not executed) | `MidiHandlers.TransitionAsWritten` (`MidiHandlers.TransitionOffByOne`, `MidiDispatch.RecordingSkippedAfterRaise`) | `MidiHandlers.Transition` (`MidiHandlers.TransitionGuardsAgree`) |
