# Presentation state of the slideshow server, in Dafny

This project models the core of a desktop presentation helper. A presenter
captures the screen with global key releases. Connected viewers follow along
over a WebSocket. The model covers the shared `AppState`, which holds three
values:

- the capture counter `slide_number`;
- the presenter's position `volatile_slide_number`;
- the list `deleted_slides`.

It also covers the handlers that change this state:

- the floored position update;
- the capture step;
- the key dispatch table (J, RightArrow, LeftArrow);
- the `delete_slide` command;
- the per-connection protocol of the realtime endpoint (a `slidesInfo`
  snapshot, then the broadcast forward loop beside the inbound close watcher);
- the `ServerMessage` / `CurrentState` wire record and the JSON text serde
  writes for it.

The files:

- `presentation.dfy` (`Presentation`): the state as a value. It has one pure
  function per handler and the invariant every handler keeps. It also has
  `Run`, which replays a trace of events in arrival order, the way the
  key-dispatch worker drains its queue, plus the lemmas about traces.
- `utility.dfy` (`Utility`): the class `AppState`. Its fields are updated in
  place. The constructor is the initial state `run` builds in lib.rs.
- `server.dfy` (`Server`): the capture, the dispatch, the delayed capture, the
  connection handshake, and the forward and inbound loops as methods.
- `commands.dfy` (`Commands`): `delete_slide`.
- Each state-changing method is proved to perform exactly the matching step of
  `Presentation`. The whole handlers keep the invariant `Valid()`:
  `TakeScreenshotAndSave`, `HandleKeyPress`, `FireDelayedCapture`,
  `AcceptConnection`, `DeleteSlide` and `DropReceiver`. The sub-steps
  `ChangeVolatileSlideNumber`, `Send` and `Subscribe` do not keep it alone. For
  example, an increment of the position at `volatile == slide_number` breaks
  `volatile <= slide_number` until the counter has moved too.
- `wire.dfy` (`Wire`), `decimal.dfy` (`Decimal`): the message record, its JSON
  text and a parser with a round-trip proof. Also the decimal rendering of a
  `u16` and the asset path `assets/slide{n}.png`, proved injective.
- `findings.dfy` (`Findings`): the position update exactly as written (see
  Findings).
- `wrappers.dfy` (`Wrappers`): `Option` and `Result`.

How the model abstracts the source:

- The asset directory is the set `files` of paths that exist. It starts empty
  because the server start clears `assets/` before the key hook runs.
- The broadcast channel is a count of receivers plus the list of messages it
  accepted. A send with no receiver fails and is not recorded.
- The frontend events (`volatile_slide_changed`, `new_slide`, `slide_removed`)
  are appended to a log.
- A RightArrow's one-second delayed capture is a pending item. `DelayElapsed`
  fires it later. So two RightArrows before the first delay ends both schedule
  a capture, as they do in the source.

## Model

| member | source | states |
|---|---|---|
| `Presentation.Initial` | src-tauri/src/lib.rs:12-23 | Start state: `slide_number` 0, `volatile_slide_number` 0, `deleted_slides` empty, and no receiver on the channel because the first receiver is dropped. |
| `Presentation.InitialInv` | src-tauri/src/lib.rs:19-24 | The start state satisfies the invariant. |
| `Presentation.ChangeVolatile` | src-tauri/src/utility.rs:20-42 | Increment adds exactly 1. Decrement above 1 subtracts exactly 1. Decrement at the floor changes nothing and emits nothing. `volatile_slide_changed` is emitted once, with the new value, exactly when the value changed. Nothing but the position and the event log changes. |
| `Presentation.Publish` | src-tauri/src/server.rs:103-110 | The channel accepts a message, and reports the receiver count, exactly when it has a receiver. Otherwise the log is unchanged and the send is an error. |
| `Presentation.Capture` | src-tauri/src/server.rs:54-116 | Both counters rise by exactly 1 whether or not a monitor exists. With a monitor, the asset `assets/slide{n}.png` for the new n exists afterwards, and `new_slide(n)` is emitted. A `slideAdded` message with `num_slides = Some(n)` and `deleted_slides = None` is published when a receiver exists. Without a monitor, only the counters and the position event change. |
| `Presentation.Dispatch` | src-tauri/src/server.rs:118-172 | J captures. RightArrow at `volatile == slide_number` only schedules one delayed capture. Any other RightArrow only increments the position. LeftArrow is the floored decrement. Any other event changes nothing. |
| `Presentation.FireDelayedCapture` | src-tauri/src/server.rs:151-157 | A fired delayed capture is one capture and consumes one scheduled item. |
| `Presentation.DeleteSlide` | src-tauri/src/commands.rs:111-153 | If the asset is missing, the result is `Err("Could not delete the slide")` and nothing changes. Otherwise the asset is gone, `slide_removed(n)` is emitted, and n is appended to the end of the list. The whole new list goes out as `slideDeleted` with `num_slides = None`. The result is `Ok("Notified k clients")` for k receivers, or `Err("Broadcast failed")` with no receiver, after the append. |
| `Presentation.Snapshot` | src-tauri/src/server.rs:216-228 | The first message of a connection is `slidesInfo`, carrying the current `slide_number` and the full current deletion list. |
| `Presentation.Accept` | src-tauri/src/server.rs:236-247 | If the initial send fails, the connection does not subscribe. Otherwise it adds one receiver, which sees the log from its current end on. |
| `Presentation.Unsubscribe` | src-tauri/src/server.rs:250-271 | When the forward task ends, its receiver is dropped and nothing else changes. |
| `Presentation.CapturePreservesInv` | src-tauri/src/server.rs:59-110 | A capture keeps the invariant. Its new asset path belongs to no existing or deleted slide, and its `slideAdded` number exceeds every earlier one. |
| `Presentation.DeletePreservesInv` | src-tauri/src/commands.rs:118-149 | A deletion keeps the invariant. The deletion list never holds a slide twice, and every `slideDeleted` list in the log is a prefix of the current list, longer than all earlier ones. |
| `Presentation.StepPreservesInv` | src-tauri/src/server.rs:149-162 | Every handler keeps `volatile <= slide_number`, which the RightArrow equality test relies on, and the rest of the invariant. Only a J release or a fired delayed capture advances the counter, by at most 1. |
| `Presentation.Run` | src-tauri/src/server.rs:420-428 | Events handled in arrival order keep the invariant in every reachable state. Traces of any length are covered, provided the J releases and fired delayed captures they hold fit the `u16` counter. The counter never decreases and grows by at most the number of those capturing events. All other events leave it alone. |
| `Presentation.StepExtends` | src-tauri/src/commands.rs:127-132 | One handler only appends to the log and to the deletion list. |
| `Presentation.RunExtends` | src-tauri/src/commands.rs:127-132 | Along any trace, the broadcast log and the deletion list only grow at their ends. |
| `Presentation.CapturesCount` | src-tauri/src/server.rs:59-70 | After N captures, both counters have advanced by exactly N, whatever the monitor outcomes. |
| `Presentation.ViewerTracksDeletions` | src-tauri/src/commands.rs:127-149 | Take a viewer whose receiver stays registered: every `Disconnect` of the trace leaves another receiver behind, however many viewers come and go. If it starts from the snapshot's list and takes each `slideDeleted` list it receives, it holds the server's current deletion list. |
| `Presentation.StepPublishesDeletions` | src-tauri/src/commands.rs:134-149 | While a receiver exists, what one handler publishes carries that handler's change to the deletion list. |
| `Presentation.RepeatedDeleteFails` | src-tauri/src/commands.rs:118-132 | After a successful deletion, deleting the same slide again fails and leaves the state unchanged, so no entry is duplicated. |
| `Presentation.TwoRightArrowsScheduleTwoCaptures` | src-tauri/src/server.rs:137-157 | Two RightArrows at `volatile == slide_number` both schedule a capture and change nothing else. Once both fire, two slides have been captured. |
| `Presentation.ScenarioFirstCapture` | src-tauri/src/server.rs:59-110 | From the start state with one viewer, J gives counter 1, position 1, the asset of slide 1 and the broadcast `slideAdded` 1. |
| `Presentation.ScenarioCatchUp` | src-tauri/src/server.rs:159-162 | With counter 3 and position 1, RightArrow moves the position to 2, with no capture and no broadcast. |
| `Presentation.ScenarioSecondViewerComesAndGoes` | src-tauri/src/server.rs:247-271 | A first viewer stays registered while a second joins and leaves. A `Disconnect` while the viewer is the only receiver is its own. |
| `Presentation.ScenarioDeleteThenConnect` | src-tauri/src/commands.rs:127-149 | With one viewer, deleting slide 2 broadcasts the list `[2]` and reports one client. A later snapshot carries `[2]`. |
| `Utility.AppState.constructor` | src-tauri/src/lib.rs:19-24 | The new object holds the start state and satisfies the invariant. |
| `Utility.AppState.ChangeVolatileSlideNumber` | src-tauri/src/utility.rs:20-42 | Updates the position in place, exactly as `Presentation.ChangeVolatile`. |
| `Utility.AppState.Send` | src-tauri/src/server.rs:103-110 | `broadcast_tx.send` in place, exactly as `Presentation.Publish`. |
| `Utility.AppState.Subscribe` | src-tauri/src/server.rs:247 | Adds one receiver and returns the log position it starts from. |
| `Utility.AppState.DropReceiver` | src-tauri/src/server.rs:250-271 | Removes one receiver and keeps the invariant. |
| `Server.TakeScreenshotAndSave` | src-tauri/src/server.rs:54-116 | Performs `Presentation.Capture` on the object: the counter first, then the position, then the asset, the event and the broadcast. The invariant is kept. |
| `Server.HandleKeyPress` | src-tauri/src/server.rs:118-172 | Performs `Presentation.Dispatch` on the object and keeps the invariant. |
| `Server.FireDelayedCapture` | src-tauri/src/server.rs:151-157 | Performs the delayed capture on the object and keeps the invariant. |
| `Server.AcceptConnection` | src-tauri/src/server.rs:201-247 | The first frame is the JSON text of the snapshot. The connection subscribes only after a successful initial send. The invariant is kept. |
| `Server.ForwardLoop` | src-tauri/src/server.rs:253-270 | The loop writes exactly the frames `Server.Forward` gives for the trace and stops for the same reason. |
| `Server.ForwardKeepsOrder` | src-tauri/src/server.rs:253-270 | The frames written are the received messages, in publish order, up to where the loop stopped. It ends with `ChannelClosed` only after a closed channel, and with `SendFailed` only after a failed send. While running, it has forwarded everything it received. |
| `Server.ForwardRunning` | src-tauri/src/server.rs:253-270 | The loop is still running exactly when no closed channel and no failed send has come. A lag never stops it, and each of the two always does. |
| `Server.ForwardStopsAtFirst` | src-tauri/src/server.rs:254-268 | At the first closed channel or failed send, the loop stops with that reason. It has then written exactly the messages received before that point, and nothing after it. |
| `Server.ForwardDeliverAll` | src-tauri/src/server.rs:253-261 | With no lag, no failure and no close, every message is forwarded, in order. |
| `Server.ConnectionTranscript` | src-tauri/src/server.rs:213-271 | Take a viewer that connects at state s and keeps its receiver while other viewers come and go. It first gets the snapshot of s. It then gets exactly the messages published after it subscribed, none earlier and none missing. Its deletion list then equals the server's. |
| `Server.FramesParse` | src-tauri/src/server.rs:231-234 | Every frame a connection writes parses back to the message it carries. |
| `Server.InboundLoop` | src-tauri/src/server.rs:276-286 | The inbound loop ends at the first Close or receive error, and ends there exactly when one occurs. All other frames are read and ignored. If none occurs, it reads until the stream ends. |
| `Commands.DeleteSlide` | src-tauri/src/commands.rs:111-153 | Performs `Presentation.DeleteSlide` on the object, returns its result, and keeps the invariant. |
| `Wire.ParseSerialize` | src-tauri/src/utility.rs:48-58 | The JSON text of every message reads back as that message. The text has `message_type`, then `current_state` with `num_slides` and `deleted_slides`, in declaration order, with `None` as `null`. |
| `Wire.SerializeInjective` | src-tauri/src/utility.rs:48-58 | Distinct messages have distinct JSON texts. |
| `Decimal.DigitsInjective` | src-tauri/src/server.rs:72 | The decimal form of a slide number determines the number. |
| `Decimal.AssetPathInjective` | src-tauri/src/server.rs:72-73 | `assets/slide{n}.png` names differ for different n. So successive captures never target the same file, and a deletion removes only its own slide's file (commands.rs:118). |
| `Findings.ChangeVolatileAsWritten` | src-tauri/src/utility.rs:25-37 | As written, a decrement is refused only at 1. At 0 it wraps to 65535, and an increment at 65535 wraps to 0. |
| `Findings.LeftArrowAtStartUnderflows` | src-tauri/src/utility.rs:25-37 | From the start state, the as-written decrement gives 65535, beyond `slide_number` 0. The corrected step leaves the start state unchanged. |
| `Findings.CorrectedLeftArrowKeepsInv` | src-tauri/src/server.rs:165-168 | With the corrected floor, LeftArrow keeps the invariant and gives `volatile - 1` above 1. At 0 or 1 it leaves the position alone. |

## Left out

- Screen capture and PNG writing (xcap, `image.save`) are library I/O. The
  model only takes whether a monitor exists. The `unwrap` panics of
  `Monitor::all`, `capture_image` and `save` are not modelled
  (server.rs:76, 81, 84).
- Presentation.Capture: requires both counters to be below 65535. The
  source's `u16` `+= 1` would wrap in a release build or panic in a debug build
  at the 65536th capture. Server.TakeScreenshotAndSave, Presentation.Dispatch (for
  J), Server.HandleKeyPress (for J) and Presentation.FireDelayedCapture carry
  the same bound.
- Presentation.Run: requires the slide counter plus the number of capturing
  events in the trace (J releases and fired delayed captures) to be at most
  65535. Other events are not limited. Presentation.RunExtends,
  Presentation.ViewerTracksDeletions and Server.ConnectionTranscript carry the
  same bound.
- Presentation.ChangeVolatile: uses the corrected floor `<= 1` instead of the
  written `== 1` (see Findings). `Findings.ChangeVolatileAsWritten` keeps the
  written form.
- Presentation.CapturePreservesInv: holds because the model makes a capture one
  atomic step. The source spawns the J capture without awaiting it
  (server.rs:128-131). The screen grab and save (server.rs:76-84) then run
  after the counter lock is released. Two overlapping captures can therefore
  publish `slideAdded` n+1 before n. The model does not capture that reordering.
- Server.ConnectionTranscript: holds because the model makes accepting a
  connection one atomic step. The source reads the snapshot (server.rs:216-218),
  awaits the network send (server.rs:239), and only then subscribes
  (server.rs:247). A message published in that window is in neither the
  snapshot nor the stream. The lemma also assumes the receiver never lags,
  since it feeds the forward loop `DeliverAll`. Presentation.ViewerTracksDeletions
  rests on the same atomic accept.
- Real timing and lock interleavings are not modelled. This covers the
  one-second sleep, the two separate lock reads in RightArrow, and the two
  separate reads of the snapshot. Each handler is one atomic step, and the
  delay is a pending item that `DelayElapsed` fires.
- The rdev global key hook thread and the mpsc bridge are concurrency
  plumbing. Dispatch processes an event trace in order.
- Tokio broadcast internals (the ring buffer of 100 messages, lag counting)
  are not modelled. The forward loop takes `Lagged` as an input.
- The forward and inbound loops of one connection run concurrently in the
  source. The model runs each on its own trace. The source does not cancel
  the forward task when the inbound loop ends. The model follows that: the
  receiver is dropped only when the forward loop stops.
- Network setup is not modelled: the routers, `TcpListener` binding, `serve`,
  `ServeDir`, `provide_app`, the `try_join!` supervision, the
  `server_ready` / `server_start_failure` / `server_crash` events, host-address
  discovery, `is_connected`, and writing `address.js`. Resetting `assets/`
  appears only as the empty file set at the start.
- The Tauri window commands `open_slide_viewer`, `show_qr_code` and
  `start_server` are UI and task spawning.
- A `delete_slide` invoked before the server started, against an `assets/`
  directory left over from an earlier run, is not modelled.
- The `unwrap` on `emit("slide_removed")` (commands.rs:124) is taken to
  succeed.
- serde_json escaping is not modelled. `message_type` is one of the three
  fixed ASCII names, so the model has a three-valued type instead of a
  string.

## Behaviour the model takes from the code

- A deletion is recorded only after the asset file was removed
  (commands.rs:121-132, 151). A never-captured or already-deleted slide is
  therefore refused and not recorded (`RepeatedDeleteFails`,
  `DeletePreservesInv`).
- A connection's forward task is not cancelled when its inbound loop ends
  (server.rs:250-286). It keeps its receiver until a send fails or the channel
  closes.
- A capture without a monitor only prints a message (server.rs:112-114). The
  counters stay advanced, and nothing is reported to a caller.

## Findings

| source | as written | input that shows it | evidently intended | confidence | as-written member | corrected member |
|---|---|---|---|---|---|---|
| src-tauri/src/utility.rs:25-37 | The early return tests `*num == 1`, so a decrement at 0 reaches `*num -= 1` on a `u16`. | A LeftArrow release before the first capture, from the start state with `volatile_slide_number` 0 (lib.rs:23). A release build wraps the position to 65535 and emits it. A debug build panics inside the key-dispatch task, and later keys go unhandled. | The position never goes below the first slide, and a LeftArrow at 0 leaves it unchanged. This keeps `volatile <= slide_number`. | high, not executed | `Findings.LeftArrowAtStartUnderflows` | `Presentation.ChangeVolatile` |
