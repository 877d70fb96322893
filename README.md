# Wildlife camera: decision rules of the dashboard and its servers

This project models, in Dafny, the sequential decision logic of the wildlife monitoring system:

- the React dashboard (`App.js`): the bounded sensor history, the mode watcher and its `cancelled` latches, the toggle target, the settlement poll loop of a mode toggle, the stream-probe retry counter, and the capture and image-refresh outcomes;
- the Pi's control server (`pi/capture_api.py`): the mode flag file, `set_mode` with its kill → clear → start → write-flag order, `toggle_mode`, PID-file parsing and removal, the latest-image choice, and the sensor register;
- the Pi's motion loop (`pi/motion_trigger_picamera2.py`): the cooldown gate on `last_trigger_time` and the `prev_gray` update;
- the EC2 sensor server (`ec2-server/environmental_sensor/app.py`): a single-cell store read back with Python's truth test.

Networks, timers and processes are replaced by their outcomes. A fetch is a `Fetch` value: a response with its `ok` flag and decoded body, or a transport error. A loop that issues one request after another (settlement polls, stream probes) reads its replies from an oracle indexed by attempt number. `os.killpg` and `subprocess.Popen` become inputs, and the signals sent and processes started are recorded in order in a `trace`. The Pi's file system is a map from path to contents. Clock readings and wall-clock labels are parameters.

Files: `wrappers.dfy` (Option), `json.dfy` (decoded JSON and Python truthiness), `pytext.dfy` (`str.strip`, `int()`, `str(n)`), `dashboard.dfy`, `capture_api.dfy`, `motion_trigger.dfy`, `sensor_server.dfy`.

## Behaviour of the code worth noting

The model follows the code in each case:

- A toggle from `unknown` targets `motion`, not `stream`: `App.js:223`, `capture_api.py:105`.
- The mode watcher accepts any truthy `mode`, `"unknown"` included, so a poll that returns `unknown` does overwrite a known mode: `App.js:206`.
- Every toggle failure ends with the same message, "Failed to toggle mode": `App.js:247`. There is no separate "did not settle" message.
- Settlement polls do not check `res.ok`. A transport error or an undecodable body aborts the whole toggle at once: `App.js:234`.
- `retryLoadStream` has no generation token. Stale probe chains are not discarded.
- The EC2 POST handler uses the non-silent `request.get_json()`. A body that does not decode is answered 400 by Flask and the cell is left alone, so the POST does not always answer 200.
- The cooldown spacing holds with any clock, not only a non-decreasing one. Each trigger needs `now - last_trigger_time > 10` and then becomes the new `last_trigger_time` (`MotionTrigger.TriggersSpaced`).

## Model

| member | source | states |
|---|---|---|
| `Dashboard.ToggleTarget` | frontend/react-frontend/pi-stream-ui/src/App.js:223 | the target is `stream` exactly when the displayed mode is `motion`, and is always `stream` or `motion` (so `unknown` goes to `motion`) |
| `Dashboard.AppendBounded` | frontend/react-frontend/pi-stream-ui/src/App.js:162-173 | one successful poll appends exactly one point, last; the length becomes min(old+1, 20); the older points kept are the newest suffix of the old history |
| `Dashboard.HistoryKeepsLastPoints` | frontend/react-frontend/pi-stream-ui/src/App.js:171-172 | any run of appends from a history of at most 20 equals the last 20 of old history followed by the new points, so the length never exceeds 20 |
| `Dashboard.HistoryFromEmpty` | frontend/react-frontend/pi-stream-ui/src/App.js:171-172 | after n successful polls from an empty chart, the history is the min(n, 20) newest points in arrival order, newest last |
| `Dashboard.SettleIsFirstDecisivePoll` | frontend/react-frontend/pi-stream-ui/src/App.js:231-243 | the settlement loop makes at most 10 polls. It stops at the first poll that throws or returns a defined mode other than `unknown`, and settles on that poll's mode. With no such poll it gives up after exactly 10 |
| `Dashboard.SettlesAfterUndecidedPolls` | frontend/react-frontend/pi-stream-ui/src/App.js:233-238 | k undecided polls (k < 10) followed by a settling one give that mode after exactly k + 1 polls |
| `Dashboard.NoSettlementAfterAllPolls` | frontend/react-frontend/pi-stream-ui/src/App.js:233-243 | 10 undecided polls give no settled mode after exactly 10 polls |
| `Dashboard.AwaitSettlement` | frontend/react-frontend/pi-stream-ui/src/App.js:232-241 | the for-loop with `break` returns the outcome and poll count of the settlement specification |
| `Dashboard.ProbeIsFirstReady` | frontend/react-frontend/pi-stream-ui/src/App.js:107-127 | probing stops at the first ready probe, or after 20 failed probes with no attach; between 1 and 20 probes in all |
| `Dashboard.StreamReadyAfterFailures` | frontend/react-frontend/pi-stream-ui/src/App.js:110-116 | k < 20 failures followed by a ready probe give k + 1 probes and an attach |
| `Dashboard.StreamExhausted` | frontend/react-frontend/pi-stream-ui/src/App.js:117-123 | a stream that never becomes ready is probed exactly 20 times and never attached |
| `Dashboard.ProbeStream` | frontend/react-frontend/pi-stream-ui/src/App.js:107-127 | the `check` chain with its `attempts` counter returns the readiness and probe count of the probe specification |
| `Dashboard.App.constructor` | frontend/react-frontend/pi-stream-ui/src/App.js:62-72 | initial state: no sensor data, empty history, no image, mode `unknown`, not loading, API online, no error |
| `Dashboard.App.FetchSensorResolved` | frontend/react-frontend/pi-stream-ui/src/App.js:152-177 | once cancelled, nothing changes. A delivered reply replaces the reading and the timestamp and appends one bounded point, with the error untouched. A failed reply (non-OK, transport or JSON error) only sets "Sensor offline". The history stays at most 20 |
| `Dashboard.LastDelivered` | frontend/react-frontend/pi-stream-ui/src/App.js:159-160 | the position of the last tick whose poll delivered a reading: that tick delivered and no later one did; none when no tick delivered |
| `Dashboard.App.RunSensorPolls` | frontend/react-frontend/pi-stream-ui/src/App.js:152-180 | over a run of ticks (nothing changes once cancelled): the history becomes the last 20 of the old history followed by the successful points; the reading and its timestamp are those of the last delivered tick, or unchanged when none delivered; the error becomes "Sensor offline" exactly when some poll failed, and is otherwise unchanged |
| `Dashboard.App.CancelSensorPolling` | frontend/react-frontend/pi-stream-ui/src/App.js:181-184 | sets the sensor effect's `cancelled` latch |
| `Dashboard.App.FetchModeResolved` | frontend/react-frontend/pi-stream-ui/src/App.js:199-211 | once cancelled, nothing changes. A delivered reply sets `apiOnline` and sets the mode to any truthy `mode` field, `unknown` included; otherwise the mode is kept. A failed reply clears `apiOnline` and keeps the mode |
| `Dashboard.App.CancelModeWatch` | frontend/react-frontend/pi-stream-ui/src/App.js:215-218 | sets the mode watcher's `cancelled` latch |
| `Dashboard.App.RetryLoadStream` | frontend/react-frontend/pi-stream-ui/src/App.js:107-128 | probes as specified. When ready, exactly one attach and the error untouched. Otherwise no attach and the error "Stream unavailable after retries." |
| `Dashboard.App.ToggleMode` | frontend/react-frontend/pi-stream-ui/src/App.js:222-251 | the target is computed from the old mode. A failed set-mode request makes no polls and keeps the mode. Otherwise there are at most 10 polls per the settlement specification. No settlement keeps the mode, with "Failed to toggle mode". A settlement publishes the mode and clears the error, and stream acquisition runs only when the settled mode is `stream`. `modeLoading` ends false in every case |
| `Dashboard.App.RefreshImage` | frontend/react-frontend/pi-stream-ui/src/App.js:188-192 | the image locator is replaced by the endpoint with the new cache-busting token |
| `Dashboard.App.HandleCapture` | frontend/react-frontend/pi-stream-ui/src/App.js:254-264 | success refreshes the image with the token read when the delayed refresh fires and leaves the error alone; failure only sets "Failed to capture image" |
| `PyText.Strip` | pi/capture_api.py:63 | the result is the contiguous slice of the input that starts after its leading whitespace, with only whitespace before and after it; it has no whitespace at either end, is empty exactly when the input is all whitespace, and leaves a string without edge whitespace unchanged |
| `PyText.ParseIntRoundTrip` | pi/capture_api.py:34-35 | `str(n)` survives `strip()` and `int()` reads it back as n |
| `CaptureApi.GetModeString` | pi/capture_api.py:60-66 | the result is one of motion, stream, unknown. It is not unknown exactly when the flag file exists and its stripped content is motion or stream, and it is then that content. A missing file reads unknown |
| `CaptureApi.ModeFlagRoundTrip` | pi/capture_api.py:69-71 | a flag written by `set_mode_flag(mode)` reads back as that mode |
| `CaptureApi.ModeIgnoresOtherFiles` | pi/capture_api.py:60-66 | removing any file other than the flag file leaves the reported mode unchanged |
| `CaptureApi.ToggleTarget` | pi/capture_api.py:103-105 | the target is `stream` exactly when the current mode is `motion`, and is always a mode `set_mode` accepts |
| `CaptureApi.ParsePid` | pi/capture_api.py:33-35 | content that is empty or all whitespace parses to -1 |
| `CaptureApi.PidFileRoundTrip` | pi/capture_api.py:126-127 | a PID file written as `str(pid)` parses back to that PID |
| `CaptureApi.LatestImage` | pi/capture_api.py:172-182 | 404 exactly when no name ends in `.jpg`. Otherwise the chosen entry is a `.jpg` whose mtime is at least every other `.jpg`'s, and strictly greater than any earlier one's (stable descending sort), served from the capture directory |
| `CaptureApi.PiServer.constructor` | pi/capture_api.py:24 | the sensor register starts as None and nothing has been signalled or started |
| `CaptureApi.PiServer.KillPidFile` | pi/capture_api.py:29-50 | the PID file is gone afterwards in every case (a missing one is a no-op). The group is signalled exactly when the content parses. The call raises exactly when `killpg` raises something other than ProcessLookupError |
| `CaptureApi.PiServer.KillExistingCameraProcesses` | pi/capture_api.py:53-55 | the stream PID file is handled before the motion PID file. An exception from the first skips the second. The signals are recorded in that order |
| `CaptureApi.PiServer.ClearModeFlag` | pi/capture_api.py:74-78 | the mode flag is absent afterwards, whether or not it existed |
| `CaptureApi.PiServer.StartMode` | pi/capture_api.py:113-150 | the spawn is recorded. Only on success are the PID file and then the mode flag written, with 200. A failed spawn changes no file and answers 500 with the exception's message |
| `CaptureApi.PiServer.SetMode` | pi/capture_api.py:84-99 | an invalid mode answers 400 and changes nothing. Otherwise the signals come before the spawn. A kill exception answers 500 before any spawn; it leaves the stream PID file removed (and the motion one too when the exception came from it) and the mode as it read. A failed spawn answers 500 with no PID files and no flag, so the mode reads unknown. Success answers 200 and the mode reads as requested |
| `CaptureApi.PiServer.SwitchMode` | pi/capture_api.py:91-99 | the switch that follows a valid mode check: kill, then clear the flag, then start. A kill exception stops it with 500, no spawn, and the mode as it read; otherwise the spawn of the requested mode follows the signals, and the files end as `start_motion`/`start_stream` leave them over a stopped system |
| `CaptureApi.PiServer.ToggleMode` | pi/capture_api.py:102-105 | never answers 400. The target is stream exactly when the previous mode was motion. A kill exception answers 500 with the signals sent so far and the PID files reached removed. Otherwise the signals are followed by the spawn of the target; a failed spawn answers 500 and leaves no PID file and no flag; success answers 200, writes the target's PID file and flag, and the mode then reads as the target |
| `CaptureApi.PiServer.GetMode` | pi/capture_api.py:108-110 | always 200, reporting exactly what `get_mode_string` reads from the files, which is one of the three mode strings |
| `CaptureApi.PiServer.UpdateSensor` | pi/capture_api.py:187-192 | the register becomes the posted document, last write wins, and becomes None for a body that does not decode; always 200 |
| `CaptureApi.PiServer.GetLatestSensor` | pi/capture_api.py:195-206 | 404 with "No data" exactly while the register holds None, otherwise 200 with the stored document |
| `MotionTrigger.TriggersSpaced` | pi/motion_trigger_picamera2.py:41-48 | every successful trigger is more than 10 s after the starting `last_trigger_time`, and any two successful triggers are more than 10 s apart |
| `MotionTrigger.MotionLoop.constructor` | pi/motion_trigger_picamera2.py:18-22 | `last_trigger_time` starts at 0 and `prev_gray` at the first frame |
| `MotionTrigger.MotionLoop.Step` | pi/motion_trigger_picamera2.py:26-55 | a capture is requested exactly when some contour area exceeds 5000 and strictly more than 10 s have passed. `last_trigger_time` becomes `now` only when that POST did not raise. `prev_gray` becomes the current frame on every pass |
| `MotionTrigger.MotionLoop.Run` | pi/motion_trigger_picamera2.py:25-55 | over a run of passes the successful triggers and the final `last_trigger_time` are those of the gate specification; `prev_gray` is the last frame |
| `SensorServer.SensorStore.constructor` | ec2-server/environmental_sensor/app.py:10 | the store starts as the empty dict |
| `SensorServer.SensorStore.ReceiveSensorData` | ec2-server/environmental_sensor/app.py:13-19 | a decoded body replaces the store, last write wins, and is answered 200 with an empty body. An undecodable body is answered 400 and leaves the store alone |
| `SensorServer.SensorStore.GetLatestData` | ec2-server/environmental_sensor/app.py:22-27 | 200 with the stored document exactly when it is truthy, otherwise 404 with "No data received yet"; so the initial `{}` and a posted `{}` both read as 404 |
| `SensorServer.RegistersDisagreeOnEmptyDocument` | ec2-server/environmental_sensor/app.py:24-27 | with `{}` stored, the Pi serves it (its test is `is None`) while the EC2 server answers 404 (its test is truthiness) |

## Left out

- The hls.js and `<video>` attachment and reset (`App.js:83-105`, `131-146`): a foreign library and the DOM. An attach is only counted (`attachCount`). The effect that attaches directly whenever the mode becomes `stream` is not modelled, so the count covers the retrier's attaches only, and the "HLS is not supported" error that `attachHls` can set is not modelled either.
- Rendering (`ModeBadge`, `SensorChart`, the JSX, the image `onError` fallback): presentation only.
- Floating-point rounding: `toFixed(2)` is not modelled. A chart point keeps the exact readings and pressure / 1000.
- A non-string truthy `mode` field (a number, say) is not modelled: the `mode` field is a string or absent.
- Interleaving: the polling loops, the toggle and the probe chain run one after another here. The asynchronous gap between `setModeLoading(false)` and the probes that `retryLoadStream` schedules is collapsed. So is the gap between `handleCapture` and its 3-second refresh. Re-entrant toggles (the button is disabled while loading) are not modelled.
- `Dashboard.App.FetchSensorResolved`: the time label comes from one clock reading, whereas the source calls `toLocaleTimeString()` twice (lines 160 and 165).
- `setInterval` and `setTimeout`: only their ticks are modelled, as calls in sequence, and the 2 s, 5 s, 10 s, 30 s and 1 s delays are not.
- The capture pipeline (`capture_api.py:155-169`, gphoto2, darktable, rclone), logging, `time.sleep`, and CORS and routing: process and framework side effects.
- `set_mode` reads the current mode only to log it; that read is not modelled.
- Reading the mode or PID file never fails in the model. An `OSError` while reading the mode file (which `get_mode_string` does not catch) and one while reading a PID file (which `kill_pid_file` treats like unparsable content) are not modelled. Nor is a failing `os.remove` in the unparsable-PID branch.
- Which errors `os.killpg` raises is an input (`KillResult`). On Linux, the -1 that an empty PID file parses to makes `killpg` fail with an error other than ProcessLookupError, and `set_mode` then answers 500. The model covers that through the input; it does not assert it about the OS.
- `PyText.ParseInt`: Python's `int()` also accepts underscores between digits and non-ASCII decimal digits; the model accepts an optional sign and ASCII digits only.
- `PyText.IsSpace` follows `str.isspace` for the ASCII and Unicode space characters listed there, without the Unicode database itself.
- `os.listdir` order is an input (`LatestImage`'s listing), and `getmtime` failing on a vanished file is not modelled.
- EC2: for a request whose content type is not JSON, recent Flask answers 415 rather than 400. Both are rejections that leave the store alone, and the model answers 400.
- `pi/send_sensor_data.py`: an endless read-and-post loop with no decision logic.
- `while True` in the motion loop and the dashboard's intervals run forever. The model covers any finite prefix (`MotionTrigger.MotionLoop.Run`, `Dashboard.App.RunSensorPolls`).
- OpenCV differencing, blur, dilation, contours and the Picamera2 setup: each pass brings its contour areas as an input. A POST that raises an exception other than `RequestException` (which would end the loop) is not modelled.
