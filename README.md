# CPU stress monitor: worker pool, monitor loop and dashboard state in Dafny

This project models the bookkeeping of an Electron app that burns CPU on demand and
streams CPU telemetry to its window.

- **Main process** (`electron/main.cjs`). It keeps a list of stress workers. `startStressTest`
  fills the list, `stopStressTest` terminates and forgets them, and each worker's `exit`
  event filters that worker out. It also keeps a monitoring interval, which `startMonitoring`
  sets, `stopMonitoring` clears, and a failing tick clears. Each tick builds a snapshot
  record in which every field falls back to a sentinel on its own. The `start-stress` and
  `stop-stress` IPC handlers always answer `success: true`. Closing the window stops both
  the stress test and the monitor.
- **Renderer** (`src/App.jsx`). A reducer keeps the last 60 chart points. An `isStressing`
  flag guards the start and stop buttons. The start button asks for
  `Math.max(1, parseInt(n))` threads.

Files:

- `JsValues.dfy`: JavaScript values the code relies on. These are missing properties,
  `NaN`, truthiness, `parseInt` results, `Math.max(1, n)` and `for (i = 0; i < n; i++)`.
- `Telemetry.dfy`: the snapshot record. It is pure.
- `MainProcess.dfy`: class `MainProcess` over the main process's module-level variables.
  Its `Valid()` states that nothing leaks:
  - every worker ever created is still tracked, or has been terminated, or has exited;
  - every interval ever created has been cleared, except the current one.
- `Dashboard.dfy`: the history reducer as pure functions, plus class `Dashboard` over the
  renderer's state. Its `Valid()` ties the chart history to every point received so far.

How the model represents the outside world:

- Worker and interval handles are fresh natural numbers taken from a counter.
- Calls to `terminate` and `clearInterval`, and handled exits, are recorded in ghost fields.
- The three hardware queries become a `Queries` parameter of `Tick`. The value `QueryThrew`
  stands for a query that threw.
- The local time of a chart point is a parameter.
- `toFixed` text is kept as the number together with its digit count (`Formatted`).

Behaviour of the code that the model keeps as it is:

- Both IPC handlers answer `success: true` even when the call did nothing.
- The renderer's clamp does not handle `NaN`. An empty thread field gives `parseInt` =
  `NaN`, and `Math.max(1, NaN)` is `NaN`. The main process's loop then runs zero times. So
  no worker starts, but `isStressing` still becomes true (`ClampedRequestSpawns`,
  `HandleStartStress`).
- A tick also stops the monitor when `cpus` is an array holding a core without a `load`.
  Calling `toFixed` on `undefined` throws inside the `try` (`BuildSnapshot`, `Tick`).
- Nothing prevents overlapping ticks. `setInterval` fires regardless of a tick still awaiting
  its queries. For this reason `Tick` is allowed in any state, including after the interval
  was cleared.

## Model

| member | source | states |
|---|---|---|
| `JsValues.ClampAtLeastOne` | src/App.jsx:67 | `Math.max(1, n)`: `NaN` stays `NaN`; an integer becomes the larger of 1 and itself, so it is at least 1 |
| `JsValues.Iterations` | electron/main.cjs:171 | the number of passes of `for (i = 0; i < n; i++)` is exactly the number of counters `i >= 0` with `i < n` (none for `NaN`) |
| `Telemetry.FormatCores` | electron/main.cjs:132-134 | mapping the cores succeeds exactly when every core has a load; then it has one entry per core, each that core's load to one decimal |
| `Telemetry.BuildSnapshot` | electron/main.cjs:130-137 | the record fails exactly when `cpus` is an array with a core lacking a load; `totalLoad` is the sentinel `Literal("0.0")` iff the load is falsy; `coresLoad` is `[]` when `cpus` is not an array and otherwise as long as `cpus`, entry `i` being core `i`'s load with one decimal; `temp` and `speed` are "N/A" iff their reading is falsy, otherwise formatted with 1 and 2 decimals |
| `Telemetry.Sample` | electron/main.cjs:125-137 | a tick yields no snapshot exactly when a query threw or `cpus` is an array with a core lacking a load; a yielded snapshot holds each sentinel value (`Literal("0.0")`, `Literal("N/A")`) exactly when its own reading is falsy |
| `Telemetry.FieldsFallBackIndependently` | electron/main.cjs:130-137 | the temperature and speed readings affect neither whether a snapshot is built nor its load fields |
| `Telemetry.ZeroTemperatureShowsSentinel` | electron/main.cjs:135 | a temperature of exactly 0 is falsy and shows as "N/A", whatever the other readings |
| `Telemetry.ZeroSpeedShowsSentinel` | electron/main.cjs:136 | a clock speed of exactly 0 is falsy and shows as "N/A", whatever the other readings |
| `MainProcess.SpawnIds` | electron/main.cjs:171-173 | the workers created by one start are `count` consecutive fresh handles in spawn order |
| `MainProcess.Without` | electron/main.cjs:183 | the filtered list holds exactly the other workers, is unchanged when the worker is not in it, and never grows |
| `MainProcess.WithoutRemovesExactlyOne` | electron/main.cjs:179-184 | in a list of distinct handles, an exit removes exactly the exiting worker, and the others keep their relative order |
| `MainProcess.WithoutKeepsDistinct` | electron/main.cjs:183 | filtering keeps the handles distinct |
| `MainProcess.MainProcess.constructor` | electron/main.cjs:10-12 | at load: no workers, monitor idle, no window, and the no-leak invariant holds |
| `MainProcess.MainProcess.CreateWindow` | electron/main.cjs:18-19 | assigning `mainWindow` changes neither the workers nor the monitor |
| `MainProcess.MainProcess.StartStressTest` | electron/main.cjs:163-186 | with workers tracked: nothing changes and nothing is spawned; otherwise the list becomes exactly the `Iterations(numThreads)` fresh handles in spawn order (none for `n <= 0` or `NaN`); no terminations; monitor untouched; no leak |
| `MainProcess.MainProcess.StopStressTest` | electron/main.cjs:191-204 | every tracked worker is terminated once, in list order, then the list is empty; with no workers nothing is terminated; monitor untouched; no leak |
| `MainProcess.MainProcess.OnWorkerExit` | electron/main.cjs:179-184 | the list becomes the old list without that worker, with identity comparison; nothing else changes; no leak |
| `MainProcess.MainProcess.StartMonitoring` | electron/main.cjs:121-147 | while running: a no-op; while idle: a fresh interval is set; workers untouched; at most one uncleared interval |
| `MainProcess.MainProcess.StopMonitoring` | electron/main.cjs:152-157 | always ends idle; clears the interval exactly when one was set (idle: a no-op); workers untouched |
| `MainProcess.MainProcess.Tick` | electron/main.cjs:124-146 | a throwing tick sends nothing and leaves the monitor idle with its interval cleared; otherwise the snapshot is sent iff the window exists and the monitor is untouched; workers untouched |
| `MainProcess.MainProcess.HandleStartStress` | electron/main.cjs:56-59 | always replies `success: true` naming the requested count, with the state change of `startStressTest` even when that was a no-op |
| `MainProcess.MainProcess.HandleStopStress` | electron/main.cjs:61-64 | always replies `success: true`, after every tracked worker was terminated and the list emptied |
| `MainProcess.MainProcess.OnWindowClose` | electron/main.cjs:46-49 | closing the window leaves no tracked worker, terminates each one that was tracked, and leaves the monitor idle with its interval cleared |
| `Dashboard.NextHistory` | src/App.jsx:49-59 | the new point is last; the length grows by one below 60 and stays put at 60 or more; every other entry is the matching point of the newest part of the old history, so prior points keep their order and only the oldest is dropped |
| `Dashboard.ReplayKeepsNewestWindow` | src/App.jsx:49-59 | from an empty history, the history after any sequence of updates is exactly the newest `min(n, 60)` points received, oldest first |
| `Dashboard.HistoryBounded` | src/App.jsx:56-57 | the history length after `n` updates is `min(n, 60)`, never more than `MAX_HISTORY_POINTS` |
| `Dashboard.NewPoint` | src/App.jsx:50-55 | the point carries the arrival time; an "N/A" temperature or speed becomes 0, a "0.0" load becomes 0, a formatted total load is carried over as it is, and a formatted finite temperature or speed is carried over |
| `Dashboard.ClampedRequestSpawns` | src/App.jsx:67 | for a start request from an integer field, the main process's spawn loop runs at least once, exactly `n` times when `n >= 1`, and never when the field parsed to `NaN` (it spawns only when no worker is tracked) |
| `Dashboard.Dashboard.constructor` | src/App.jsx:18-25 | initial state: sentinel snapshot, empty history, not stressing, one thread |
| `Dashboard.Dashboard.OnCpuDataUpdate` | src/App.jsx:47-59 | the shown snapshot becomes the new one; the history is the reducer applied to the new point, stays at most 60 long, and stays equal to the newest window of all points received |
| `Dashboard.Dashboard.HandleStartStress` | src/App.jsx:65-70 | while stressing: no request and nothing changes; otherwise requests `Math.max(1, numThreads)` and sets `isStressing` |
| `Dashboard.Dashboard.HandleStopStress` | src/App.jsx:72-76 | while not stressing: no request and nothing changes; otherwise requests a stop and clears `isStressing` |
| `Dashboard.Dashboard.HandleThreadChange` | src/App.jsx:78 | the thread count becomes the parsed field value and nothing else changes |

## Left out

- Creating, running and terminating real worker threads is not modelled. So is the PBKDF2 loop
  of `electron/stressWorker.cjs`. A worker is a fresh handle, and `terminate` is a recorded call.
- The per-worker `error` handler and the exit-code message are not modelled. They only log.
  The other console logging is left out too.
- `setInterval` timing and the 1000 ms period are not modelled. The order of ticks is the order
  of `Tick` calls.
- The `systeminformation` queries are not modelled. Their answers are the `Queries` parameter.
- The `get-cpu-info` and `get-detailed-system-info` handlers are not modelled. They pass data
  through and hold no logic.
- Window creation options and loading the page are not modelled.
- The `ready-to-show` handler is not modelled separately. It shows the window, which is not
  modelled, and calls `startMonitoring`, which is `StartMonitoring`.
- The `activate` and `window-all-closed` app events are not modelled.
- The preload bridge (`electron/preload.cjs`) is not modelled. This includes subscribing and
  removing the `cpu-data-update` listener.
- Sending to a window whose contents were already destroyed is not modelled.
- Floating-point rounding is not modelled. `toFixed` is kept as a value and a digit count, and
  `parseFloat` of a formatted value gives that value back. Infinite readings are not
  distinguished from finite ones.
- `BuildSnapshot`, `Sample`: a truthy load below 0.05 prints as "0.0", the same text as the
  zero-load sentinel. The model keeps the two apart (`Formatted` against `Literal`), so their
  "iff" on `totalLoad` holds for the model's values and not for the text sent. The "N/A"
  sentinel cannot collide this way, since `toFixed` never prints it.
- `NewPoint`: does not capture the digits lost to `toFixed` rounding, because rounding of
  floating-point numbers is outside the model.
- Thread counts that are numbers but not integers are not modelled. The renderer only sends
  `parseInt` results.
- React's asynchronous state updates are not modelled. `isStressing` is set after the awaited
  IPC call, and two clicks inside that await would both pass the guard. Each handler is one
  atomic step here. A rejected IPC promise is not modelled either.
- The initial load of CPU info is not modelled. It sets the thread field to the core count.
- Chart and table rendering are not modelled.
