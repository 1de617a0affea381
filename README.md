# camera_rs core, modelled in Dafny

camera_rs is a small live camera viewer built on Bevy, egui and v4l. A
background capture thread pulls frames from a V4L2 device and hands the
newest one to the display system. The display system polls for it once per
tick and lets the user pick a device and reset its controls. This project
models the sequential logic under that glue and proves its properties:

- `FrameSlot` (frame_slot.dfy): the `LastFrame` cell shared through
  `CameraImageRaw`. It is a class with a byte-sequence buffer and the
  `readed` flag. `Publish` is the capture loop's clear-and-refill and
  `Take` is `read_image`'s take-if-unread. Lemmas over any sequence of
  publishes and takes show three things. A take never returns a frame older
  than the newest one published. A take returns a frame exactly when the
  access just before it was a publish or, for the first take, when the slot
  started unread; so a frame is never delivered twice.
  A frame is delivered at most once: publish F, take = F, take = nothing.
- `CaptureWorker` (capture_worker.dfy): the `spawn` closure's loop. It
  fetches a frame, publishes it, and only then checks the stop bit. A fetch
  error ends it. The device's `stream.next()` is a given sequence of
  outcomes. The other thread's store to the stop bit is placed by
  `raiseAt`, the index of the first check that sees it. The loop is only
  ever stopped this way, between fetches. The recursive function `Run` is
  the loop's specification. Its contract, together with
  `RunPublishesFetched`, describes the whole behaviour.
  The method `Work` is the loop itself, proved to follow `Run`.
- `DeviceSelection` (device_selection.dfy): `open_camera`, run once per
  tick over the `CurrentDevice` and `DeviceThread` resources and the queue
  of `CameraChanged` messages, together with `choose_device`'s write of
  `CurrentDevice` when a device is clicked (`Click`). The value-level
  `Select` is proved to do nothing on an empty queue and to act only on the
  last id. Either failure resets both resources. Success registers exactly
  one fresh session whose stop bit is clear. Over any sequence of
  selections, clicks and thread failures, at most one capture thread is
  alive (`AlwaysOneLive`). The classes `Session` and `DeviceManager` are
  the stateful version, and `OpenCamera` is proved to follow `Select`.
  Each `Device::new` call made by `open_camera` itself (src/main.rs:80) is
  logged together with whether every earlier thread had finished at that
  moment, and `OpenCamera` proves that this is always true. The open made
  by `choose_device` is not covered by this (see "Left out").
- `Controls` (controls.dfy): the reset mapping and the enabled-flag rule of
  `config_camera`, and the reset loop as the list of `set_control` calls
  it makes.

Where the code behaves in ways a reader may not expect, the model follows
the code:

- The worker's result is never inspected. The code overwrites or resets
  `DeviceThread` and drops the join handle without joining it.
  `Session.result` keeps the result, and nothing reads it.
- The default `LastFrame` is an empty buffer marked unread. So the first
  take, before any frame arrives, returns the empty buffer, and decoding
  it fails (`FirstTakeBeforeAnyFrame`).
- A thread that ends on a fetch error stays registered, and its device
  stays current, until the next selection stops it (`WorkerEnded`).
- A click in the device chooser makes the clicked device current at once
  (src/main.rs:221-224), while the old thread still streams the old
  device. Until the next `open_camera` pass, `CurrentDevice` names a device
  no thread streams (`ClickThenOpen`). So the model's invariant relates
  only the registered session to the session list; the pairing of the
  current device with the registered session (`Tracking`) holds after
  every pass of `open_camera` that receives a message.
- `open_camera` does the teardown, the open and the negotiation within
  one call.

## Model

| member | source | states |
|---|---|---|
| `FrameSlot.LastFrame.constructor` | src/main.rs:10-14 | the default slot is an empty buffer whose `readed` flag is false |
| `FrameSlot.LastFrame.Publish` | src/main.rs:109-112 | afterwards the buffer is exactly the new frame, with no remnant of the old one, and the slot is unread |
| `FrameSlot.LastFrame.Take` | src/main.rs:259-266 | a read slot yields nothing and stays as it was; an unread slot yields exactly its bytes and becomes read; the bytes never change |
| `FrameSlot.ReplayHoldsNewest` | src/main.rs:109-112 | after any sequence of publishes and takes, the buffer holds the frame of the last publish, or the initial bytes if there was none |
| `FrameSlot.ReplayReaded` | src/main.rs:259-266 | after any sequence of accesses, the slot is marked read exactly when the last access was a take |
| `FrameSlot.NoStaleRead` | src/main.rs:259-266 | a take that returns a frame returns the newest frame published before it |
| `FrameSlot.ReadSucceedsIff` | src/main.rs:259-266 | a take returns a frame if and only if the access just before it was a publish (for the first access: if the slot started unread) |
| `FrameSlot.NoDuplicateDelivery` | src/main.rs:261-264 | between two takes that both return a frame there is a publish |
| `FrameSlot.PublishTakeTake` | src/main.rs:259-266 | publish F, then take, then take: the first take returns exactly F and the second nothing |
| `FrameSlot.FirstTakeBeforeAnyFrame` | src/main.rs:10-14 | from the default slot, the first take returns the empty buffer |
| `FrameSlot.ReplayWrites` | src/main.rs:109-112 | publishing several frames back to back leaves the last of them, unread |
| `CaptureWorker.Run` | src/main.rs:105-117 | the loop publishes at most one frame more than the number of checks that saw the bit clear; it stops with Ok exactly after the first check that sees the bit; an error exit returns the error of the outcome just after the last published frame; it is still running only when it has published one frame per outcome and no check saw the bit. Together with `RunPublishesFetched` (the published frames are the fetched ones, in order) this fixes the whole behaviour |
| `CaptureWorker.RunPublishesFetched` | src/main.rs:106-111 | the i-th frame published is exactly the i-th frame fetched, so none is dropped, reordered or altered |
| `CaptureWorker.Work` | src/main.rs:102-118 | the loop's exit is `Run`'s, the slot ends holding the last frame `Run` publishes, and the stop bit is set only when the other thread set it |
| `CaptureWorker.StopBit.constructor` | src/main.rs:100 | a new stop bit is clear |
| `CaptureWorker.StopBit.Raise` | src/main.rs:68 | afterwards the stop bit is set |
| `CaptureWorker.StopEndsLoop` | src/main.rs:113-115 | once a check can see the bit, the loop has ended by that check: cancellation takes effect between fetches |
| `CaptureWorker.PublishBeforeCheck` | src/main.rs:109-115 | when the loop stops, the frame fetched in that iteration has already been published |
| `CaptureWorker.ErrorKeepsLastFrame` | src/main.rs:106-108 | an error before the bit is seen ends the loop with that error, and the slot keeps the last frame fetched successfully, or what it held before |
| `DeviceSelection.Retire` | src/main.rs:67-70 | the registered session is told to stop and has finished, keeping its device; every other session, the registration and the current device are unchanged |
| `DeviceSelection.Install` | src/main.rs:72-121 | after the teardown, the registered session is the newest and a device is current exactly when a session is registered for it (the failure and success cases are `FailureClearsBoth` and `SuccessInstalls`) |
| `DeviceSelection.Select` | src/main.rs:52-122 | one run of `open_camera` keeps the registered session the newest and, when a message was queued, leaves a device current exactly when a session is registered for it |
| `DeviceSelection.WorkerEnded` | src/main.rs:102-118 | a thread that ends on its own marks the registered session finished and leaves every other session untouched; the registered session stays the newest, and neither the current device, the registration, nor any session's device or stop bit changes |
| `DeviceSelection.Click` | src/main.rs:219-226 | a click on a device other than the current one makes it current when it opens; otherwise nothing changes; the registration and the sessions never change |
| `DeviceSelection.Steps` | src/main.rs:52-122 | any sequence of selections, clicks and thread failures keeps the registered session the newest |
| `DeviceSelection.RetireStopsAll` | src/main.rs:67-70 | once the registered thread has been told to stop and has finished, every thread ever spawned has been told to stop and has finished |
| `DeviceSelection.NothingPending` | src/main.rs:63-65 | with no queued message, the device, the session and every thread are unchanged |
| `DeviceSelection.LastMessageWins` | src/main.rs:78 | two queues that end in the same id lead to the same state |
| `DeviceSelection.FailureClearsBoth` | src/main.rs:72-97 | if opening the device or negotiating the stream fails, both the current device and the session become none, and every thread has finished |
| `DeviceSelection.SuccessInstalls` | src/main.rs:99-121 | on success the last id is current, and exactly one new session is registered, with its stop bit clear; the old session was told to stop and finished; older sessions are untouched |
| `DeviceSelection.SpawnKeepsOneLive` | src/main.rs:99-121 | registering a fresh session with a clear stop bit, after every earlier session was told to stop and has finished, leaves exactly that session's thread alive |
| `DeviceSelection.StepKeepsOneLive` | src/main.rs:67-121 | each selection, click or thread failure keeps at most one thread alive, and that thread is the registered one, with its stop bit clear |
| `DeviceSelection.AlwaysOneLive` | src/main.rs:67-121 | from the start, after any sequence of selections, outcomes, clicks and thread failures, at most one capture thread is alive |
| `DeviceSelection.ClickThenOpen` | src/main.rs:221-224 | a click on another device while one streams leaves the current device unpaired with the registered session; the next `open_camera` pass for that id pairs them again, or clears both when opening fails |
| `DeviceSelection.OpenFailureStartsNothing` | src/main.rs:80-86 | selecting a device that cannot be opened, from the start, leaves no device and starts no thread |
| `DeviceSelection.SwitchLeavesOneWorker` | src/main.rs:67-121 | after selecting `a` and then `b`, `b` is current, `a`'s thread was told to stop and has finished, and the only live thread is `b`'s |
| `DeviceSelection.Session.constructor` | src/main.rs:99-101 | a new session has a fresh, clear stop bit, a thread that has not finished, and no result |
| `DeviceSelection.Session.Progress` | src/main.rs:102-118 | a running thread publishes what `Run` publishes with the bit clear, and finishes only on a fetch error, keeping that error as its result; a finished thread does nothing |
| `DeviceSelection.Session.StopAndWait` | src/main.rs:67-70 | afterwards the bit is set and the thread has finished; a running thread publishes at most its in-flight frame; for a thread that had already finished, nothing else changes |
| `DeviceSelection.DeviceManager.constructor` | src/main.rs:38-40 | no device, no session, and a default frame slot |
| `DeviceSelection.DeviceManager.OpenCamera` | src/main.rs:52-122 | follows `Select`; every device open it makes happens when every previously spawned thread has finished; the frame slot ends holding what a running registered thread published for its in-flight fetch, and is otherwise unchanged |
| `DeviceSelection.DeviceManager.StopRegistered` | src/main.rs:67-70 | retires the registered session, after which every spawned thread has been told to stop and has finished; the frame slot changes only by what a running thread publishes for its in-flight fetch |
| `DeviceSelection.DeviceManager.Register` | src/main.rs:72-121 | follows `Install` and restores the single-live-session invariant |
| `DeviceSelection.DeviceManager.ResetResources` | src/main.rs:72-76 | both resources become none; the sessions are unchanged |
| `DeviceSelection.DeviceManager.SpawnSession` | src/main.rs:99-121 | the id becomes current and one fresh session, sharing the frame slot and with a clear stop bit, is registered |
| `DeviceSelection.DeviceManager.ChooseDevice` | src/main.rs:219-226 | follows `Click`: only the current device can change; the registered thread and every session stay as they were |
| `DeviceSelection.DeviceManager.Stream` | src/main.rs:102-118 | the registered thread running on its own changes the model only by finishing after a fetch error; the frame slot ends holding the last frame it published, and is unchanged when no thread is running |
| `Controls.Enabled` | src/main.rs:159-164 | a control is enabled if and only if its flags have neither DISABLED nor INACTIVE |
| `Controls.EnabledIgnoresOtherFlags` | src/main.rs:180-185 | no other flag bit affects whether a control is enabled |
| `Controls.ResetValue` | src/main.rs:134-143 | a set is issued if and only if the value is none, integer or boolean (text and compound values are skipped), and the value written is of the same kind |
| `Controls.ResetStoresDefault` | src/main.rs:136-137 | an integer resets to the descriptor default; a boolean resets to `default != 0`, which reads back as the default when that is 0 or 1 |
| `Controls.ResetIgnoresCurrent` | src/main.rs:134-143 | the value written does not depend on the value being replaced, and resetting a reset value writes the same value again |
| `Controls.BooleanResetsToFalse` | src/main.rs:137 | a boolean control with default 0 that was set to true resets to false |
| `Controls.ResetRequest` | src/main.rs:130-144 | one descriptor yields a set exactly when its read succeeded and its value is resettable, and the set carries the descriptor's id and the reset value |
| `Controls.Plan` | src/main.rs:128-146 | the loop issues no more sets than there are descriptors, and one per descriptor when every descriptor yields one |
| `Controls.ResetAll` | src/main.rs:128-146 | the `set_control` calls the reset loop makes are those of `Plan`, in descriptor order |
| `Controls.PlanIssues` | src/main.rs:129-144 | a set is issued for a control if and only if reading it succeeded and its kind is resettable, and the set carries that control's id and reset value |
| `Controls.PlanWritesResetValues` | src/main.rs:134-144 | every issued set is the reset value of a control that was read successfully |

## Left out

- Bevy wiring (`main`, `setup`, resources and systems, sprites, asset handles) is framework glue.
- The egui windows, labels, sliders and checkboxes are UI. So are the control value edits made through them.
- `choose_device`'s window, labels and highlighting are UI. Its state change, the write of `CurrentDevice` on a click, is modelled by `Click` and `ChooseDevice`.
- The `Device::new(id)` call in `choose_device` (src/main.rs:222) opens the clicked device while the old thread may still stream, and storing the new handle drops the old `Device` (src/main.rs:223). Device handles are not modelled, and the `opens` log covers only `open_camera`'s own open (src/main.rs:80).
- Device enumeration, `query_caps` and the device handle stored in `CurrentDevice` are left out. A device is only its index.
- v4l calls are not modelled as code. `Device::new` and `MmapStream::with_buffers` become the `Outcome` parameter. `stream.next()` becomes a sequence of `Fetch` outcomes, with error codes as opaque numbers. `device.control` becomes the `read` field of a `Query`.
- The capture stream never ends in the source. `Run` and `Work` cover a finite prefix of its outcomes, and `Running` means the loop is still going when that prefix runs out.
- The panic in `dev.query_caps().expect(...)` is not modelled. It happens after a negotiation failure if the capability query itself fails (src/main.rs:91). The model takes that query as succeeding; it only feeds a diagnostic printout.
- The panic in `query_controls().unwrap()` is not modelled (src/main.rs:129). `ResetAll` takes the list of descriptors as given. The result of each `set_control` call is ignored by the source (src/main.rs:144). The model lists the calls and does not model the driver's response.
- Mutex poisoning (`lock().unwrap()`) is not modelled. Each locked section is one atomic step.
- Real threads are not modelled. The two threads' steps are interleaved explicitly. In `Work`, the other thread's store to the stop bit becomes visible at check `raiseAt`. The busy-wait `while !is_finished() {}` never runs as a loop.
- DeviceSelection.Session.StopAndWait: assumes the in-flight fetch of a running thread returns; it is given as the `inFlight` parameter. The wait's termination therefore rests on that assumption, which the source does not guarantee. `StopEndsLoop` shows that the loop then ends at its next check.
- Image decoding (`image::load_from_memory`, `Image::from_dynamic`) is an external library. Logging and printing are left out too.
