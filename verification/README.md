# Realtime visualizer: the deterministic core, in Dafny

The realtime visualizer is a browser demo. It streams webcam frames over a
WebSocket to a Node relay. The relay runs one Python worker per frame and
sends the worker's JSON back. The browser then adds the result to the series
of the selected chart (heatmap, emotion pie, distance line). Almost all of it
is UI and I/O. This project models the deterministic rules underneath, as
immutable datatypes and pure functions, and proves what they guarantee.

Modules, one per source file:

- `Utils` (realtime-visualizer/src/utils.js): `capitalizeText`, the running
  per-label emotion totals (`updatePieChartData`, and its copy
  `updateRadarChartData`), and the line-series append. The JavaScript object
  used as the label map is an insertion-ordered association list.
- `Heatmap` (realtime-visualizer/src/components/Heatmap.jsx): the 40-pixel
  grid and the per-cell counts.
- `Relay` (server/server.js): message validation, the type-to-script table,
  stdout buffering, `String.prototype.trim`, and the single reply decided
  when the worker closes. The handler for one message is modelled end to end.
- `Demo` (realtime-visualizer/src/sections/DemoSection.jsx): the component
  state `(selectedVis, heatmap, pie, line, connectionError)`. Its transitions
  are the mode toggle, an inbound server message, and one capture tick. Two
  lemmas connect the client to the relay.
- `Emotions` (server/emotions_detector.py): the simulated emotion detection,
  with the random draws taken as inputs.
- `Seqs` and `Wrappers`: order-preserving de-duplication (`Dedup`), and
  `Option` for `null`/`undefined`/`None`.

Inputs that stand in for the environment:

- the worker's exit code and stdout chunks;
- the JSON parser, as a function that returns `None` where `JSON.parse` throws;
- the video element's state, whether the socket is open, and the encoded frame;
- the random draws, as total functions into their ranges;
- whether `base64.b64decode` failed or the simulation raised.

Behaviours of the code worth noting:

- A blank reply is detected with `trim()`. Whitespace-only output, not just
  empty output, gets no reply.
- Re-clicking the selected mode reports `null` to `handleVisChange`. That
  changes nothing, so the series are not cleared unconditionally on every
  toggle.
- The pie merge gives the same totals in any batch order
  (`PieTotalsCommute`). The order of the labels does depend on batch order.
- The second `if (!base64Image)` check in server/server.js:41-44 can never
  fire after the first one, so it has no counterpart in the model.

## Model

| member | source | states |
|---|---|---|
| `Utils.CapitalizeText` | realtime-visualizer/src/utils.js:1-3 | The length is kept. Every character after the first is kept. The first is upper-cased. "" maps to "". |
| `Utils.CapitalizeIdempotent` | realtime-visualizer/src/utils.js:1-3 | Capitalising twice gives the same result as capitalising once. |
| `Utils.UpdatePieChartData` | realtime-visualizer/src/utils.js:5-37 | The length guards at lines 10 and 17 change nothing: the result is the load loop over the previous series followed by the increment loop over the batch, with null read as empty. |
| `Utils.PutSpec` | realtime-visualizer/src/utils.js:12 | Assigning `emotionMap[l] = v`: a new key is appended to the key order and an existing key keeps its place. Reading `l` then gives `v`, and every other key reads as before. |
| `Utils.IncrementSpec` | realtime-visualizer/src/utils.js:19-25 | A batch entry adds its value to its label's total (a missing label counts as 0) and changes no other label. |
| `Utils.LoadAllSpec` | realtime-visualizer/src/utils.js:10-14 | Loading the previous series keeps each label once, at its first position, with its last value. |
| `Utils.PieLabels` | realtime-visualizer/src/utils.js:7-33 | The result has each label exactly once. Its labels are the union of the previous and batch labels. The previous labels come first, then labels new in the batch in first-occurrence order. |
| `Utils.PieTotals` | realtime-visualizer/src/utils.js:9-27 | Each label's value is its previous value (the last one if repeated, 0 if absent) plus the sum of all batch values for it. |
| `Utils.PieEmptyBatch` | realtime-visualizer/src/utils.js:10-17 | A null batch and an empty batch give the same result: the previous series de-duplicated, last value winning. A series without repeated labels comes back unchanged. |
| `Utils.PieBatchesCompose` | realtime-visualizer/src/utils.js:17-26 | Merging batch A and then batch B gives exactly the series that merging A ++ B in one call gives. |
| `Utils.PieTotalsCommute` | realtime-visualizer/src/utils.js:17-26 | Merging A then B gives every label the same total as merging B then A. |
| `Utils.UpdateRadarChartData` | realtime-visualizer/src/utils.js:38-70 | The radar copy, written as loops over a key/value object, returns exactly what the pie function returns, for every input. |
| `Utils.AssignAll` | realtime-visualizer/src/utils.js:43-47 | The object built by the first loop has distinct keys, and its view is the loaded previous series. |
| `Utils.IncrementAll` | realtime-visualizer/src/utils.js:50-60 | The object after the second loop is the batch folded into the starting object. |
| `Utils.UpdateLineChartData` | realtime-visualizer/src/utils.js:71-74 | The result is the previous points followed by the new points, with null counting as empty. Its length is the sum of the two lengths. |
| `Utils.LineBatchesCompose` | realtime-visualizer/src/utils.js:71-74 | Appending two batches in turn is the same as appending their concatenation once. |
| `Heatmap.EmptyGrid` | realtime-visualizer/src/components/Heatmap.jsx:15-19 | The grid has `rows * cols` cells, all with count 0. |
| `Heatmap.GridTiles` | realtime-visualizer/src/components/Heatmap.jsx:15-19 | The cell at row r, column c has index `r*cols + c` and corner `(c*40, r*40)`, so the cells tile the chart. |
| `Heatmap.GridPositions` | realtime-visualizer/src/components/Heatmap.jsx:15-19 | Cell i of the empty grid sits at ((i mod cols)*40, floor(i/cols)*40). A non-empty grid has cols > 0. |
| `Heatmap.CellIndex` | realtime-visualizer/src/components/Heatmap.jsx:23-33 | A sample is skipped exactly when it has no face point or its first point has x or y equal to 0. |
| `Heatmap.Bin` | realtime-visualizer/src/components/Heatmap.jsx:33-34 | A counted sample always lands in an existing cell. |
| `Heatmap.BinIff` | realtime-visualizer/src/components/Heatmap.jsx:23-34 | A sample counts at cell i iff it passes the filter, i = floor(y/40)*cols + floor(x/40), and 0 <= i < rows*cols. |
| `Heatmap.OnlyFirstPointCounts` | realtime-visualizer/src/components/Heatmap.jsx:29-30 | Face points after the first never change where, or whether, a sample is counted. |
| `Heatmap.BinContainsPoint` | realtime-visualizer/src/components/Heatmap.jsx:29-34 | A point inside the whole cells is counted in the cell whose square contains it. |
| `Heatmap.PastLastColumnWrapsToNextRow` | realtime-visualizer/src/components/Heatmap.jsx:31-34 | There is no column check. A point in the strip right of the last whole column, in any row but the last, counts in the first cell of the next row, and that cell does not contain it. Example: (490, 20) on a 500x480 chart lands in cell 12, at (0, 40). |
| `Heatmap.PastLastRowIsDropped` | realtime-visualizer/src/components/Heatmap.jsx:31-34 | A point with x >= 0 below the last whole row is never counted. Detected centres are never negative. |
| `Heatmap.AddSample` | realtime-visualizer/src/components/Heatmap.jsx:23-34 | One sample adds exactly 1 to at most one cell. Positions and all other counts are unchanged, and the total grows by 1 or 0. |
| `Heatmap.BuildHeatmap` | realtime-visualizer/src/components/Heatmap.jsx:11-35 | The loop applies `AddSample` once per sample. The grid has floor(w/40)*floor(h/40) cells. It is the empty grid with each count set to the number of samples binned at that cell. The counts sum to the number of counted samples, which is at most \|data\|. |
| `Relay.ScriptFor` | server/server.js:26-39 | The switch inverts the worker-to-type map: a type selects only the worker it names, and every worker is selected by its own type. |
| `Relay.DispatchTable` | server/server.js:26-39 | heatmap, pie and line select face_detector.py, emotions_detector.py and face_distance_estimator.py. Each worker has exactly one type, and any other type selects nothing. |
| `Relay.Route` | server/server.js:21-39 | A message with a missing or empty type or data, or an unknown type, launches nothing. Otherwise that type's worker is launched with `data` as its stdin. |
| `Relay.BufferStdout` | server/server.js:52-56 | The buffered stdout is the in-order concatenation of all chunks received. |
| `Relay.ConcatAppend` | server/server.js:52-56 | Chunks received in two runs buffer to the two buffers joined. |
| `Relay.Trim` | server/server.js:77-80 | `!stdout.trim()` holds iff every character of the output is ECMAScript whitespace. A non-empty trimmed string neither starts nor ends with whitespace. |
| `Relay.OnClose` | server/server.js:67-94 | A non-zero or null exit gives exactly `Processing failed`. Exit 0 with blank output gives no message. Otherwise a parse gives `{type, data}` with the type echoed, and a failed parse gives exactly `Failed to parse result`. |
| `Relay.HandleMessage` | server/server.js:16-94 | Each message produces at most one reply, and none if nothing was launched. Invalid messages launch and send nothing. Every reply echoes the inbound type and carries the parsed buffer. |
| `Relay.SuccessfulRunReplies` | server/server.js:82-87 | A valid message whose worker exits 0 with parseable output gets exactly one reply `{type, data: parsed}`. |
| `Demo.HandleVisChange` | realtime-visualizer/src/sections/DemoSection.jsx:46-53 | `null` changes nothing. Any other mode is selected and all three series are emptied. |
| `Demo.OnMessage` | realtime-visualizer/src/sections/DemoSection.jsx:86-111 | At most one series changes, and mode and error flag never change. Unparsed, untyped (error replies included) and unknown-type messages change nothing. |
| `Demo.HeatmapMessageAppends` | realtime-visualizer/src/sections/DemoSection.jsx:91-92 | A heatmap message appends exactly one element, its payload, to the heatmap series. |
| `Demo.PieMessageMerges` | realtime-visualizer/src/sections/DemoSection.jsx:94-97 | A pie message gives every label its old total plus the message's sum for it, and leaves the other series alone. |
| `Demo.LineMessageAppends` | realtime-visualizer/src/sections/DemoSection.jsx:99-102 | A line message appends its readings, in order, and leaves the other series alone. |
| `Demo.CaptureAndSendAsWritten` | realtime-visualizer/src/sections/DemoSection.jsx:177-214 | The tick as the interval runs it. If the video is not ready, nothing changes. With the socket open, `{type: selectedVis, data}` is sent, and the flag ends set iff it was set and the closure's captured flag was clear. Otherwise nothing is sent and the flag is set. Nothing else changes. |
| `Demo.StaleFlagStaysSet` | realtime-visualizer/src/sections/DemoSection.jsx:199-210 | An interval created while the flag was clear can set the flag on a closed socket. Once the socket is open, its next tick sends the frame but leaves the flag set. |
| `Demo.FreshClosureAgrees` | realtime-visualizer/src/sections/DemoSection.jsx:199-210 | The intended tick is the tick as written, run with the current flag instead of the captured one. |
| `Demo.RecoversOnReconnect` | realtime-visualizer/src/sections/DemoSection.jsx:199-210 | With the intended tick, a failed tick followed by a tick on an open socket ends with the flag clear. |
| `Demo.CaptureAndSend` | realtime-visualizer/src/sections/DemoSection.jsx:199-210 | The tick as evidently intended. If the video is not ready, nothing is sent and nothing changes. With the socket open, `{type: selectedVis, data}` is sent and the error flag clears. Otherwise nothing is sent and the flag is set. Nothing else in the state changes. |
| `Demo.EveryModeIsRouted` | realtime-visualizer/src/sections/DemoSection.jsx:16-20 | Every mode's wire name is a type the relay dispatches to a worker. |
| `Demo.RepliesLandInTheirMode` | realtime-visualizer/src/sections/DemoSection.jsx:90-106 | A reply to a frame sent in mode v changes only v's series. An error reply changes nothing. |
| `Demo.PieLabelsStayDistinct` | realtime-visualizer/src/sections/DemoSection.jsx:31-51 | The pie series never repeats a label. This holds on mount and after every transition, including both versions of the capture tick. |
| `Emotions.Selected` | server/emotions_detector.py:43-52 | The draw makes between 1 and 3 selections, each a member of `POSSIBLE_EMOTIONS`. |
| `Emotions.UniqueEmotions` | server/emotions_detector.py:54-60 | The kept emotions are drawn ones, no more than were drawn, and no two share a label. |
| `Emotions.UniqueEmotionsSpec` | server/emotions_detector.py:54-60 | The labels of the kept emotions are the drawn labels de-duplicated in first-occurrence order. |
| `Emotions.Confidence` | server/emotions_detector.py:62-68 | A confidence lies in [1, 10]. It equals the base draw when likelihood <= 15. Otherwise it is base + boost, or 10 when that exceeds 10: min(10, base + boost). |
| `Emotions.ConfidenceMonotone` | server/emotions_detector.py:66-68 | A larger boost never lowers a confidence. Below the cap, a boostable emotion gains exactly the boost. |
| `Emotions.BoostedEmotions` | server/emotions_detector.py:18-26 | Exactly neutral and happy have likelihood > 15. Surprised, at exactly 15, does not. |
| `Emotions.NamesDetermineEmotion` | server/emotions_detector.py:18-26 | Labels are unique in `POSSIBLE_EMOTIONS`. |
| `Emotions.Simulate` | server/emotions_detector.py:43-76 | With nothing raised: at most one entry per draw, no label twice, every confidence in [1, 10]. |
| `Emotions.SimulateSpec` | server/emotions_detector.py:34-76 | The simulated result has 1 to 3 entries with distinct labels in first-draw order. Every label is known and every value is in [1, 10]. Non-boostable emotions carry the base draw. |
| `Emotions.SimulateEmotionDetection` | server/emotions_detector.py:34-80 | The answer, with or without an exception, is never empty. It has 1 to 3 entries with known labels and confidences in [1, 10], and the exception path gives exactly the fallback. |
| `Emotions.EmittedFacePoints` | server/emotions_detector.py:90-114 | A decode failure or a raised simulation emits exactly `[{neutral, 1}]`. |
| `Emotions.EmittedWellFormed` | server/emotions_detector.py:78-114 | The emitted `facePoints` list is never empty and has at most 3 entries. Its labels are distinct and known, and every value is in [1, 10]. |
| `Emotions.EmittedIsSimulation` | server/emotions_detector.py:95-106 | With a clean decode and no exception, the emitted list is the simulation itself: the empty-result fallback never fires. |

## Left out

- Sockets, the listener, `spawn`, stdin/stdout piping, stderr logging, timers and `console` output are I/O. Their observable results are inputs.
- An inbound message that is not JSON makes `JSON.parse` throw at server/server.js:17, before any validation. It is not modelled.
- Non-string `type` or `data` values on either side are not modelled. Both are strings, or None when absent or `null`.
- `Utils.UpdatePieChartData` treats the label map as a plain key/value list, and `PieLabels` and `PieTotals` rely on that. Two JavaScript object behaviours are not modelled. `Object.keys` lists integer-like keys first, in ascending numeric order. Names inherited from `Object.prototype` (`constructor`, `toString`, `__proto__`, ...) read as defined on `{}`, so utils.js:20-21 would concatenate onto them, and `__proto__` never becomes a key. Emotion labels are neither kind.
- `Utils.CapitalizeText` upper-cases ASCII letters only. JavaScript's full Unicode mapping can lengthen the string ("ß" becomes "SS"), and `charAt` works on UTF-16 code units. `String(val)` of a non-string argument is not modelled.
- `Heatmap.BuildHeatmap` takes whole-pixel chart sizes and integer coordinates. The chart can have fractional sizes (`windowWidth * 0.75`). NaN and missing coordinates, also falsy, are not modelled. The d3 colour scale and drawing are rendering.
- `Demo.OnMessage` assumes a typed reply has a `data` member. For a known type without `data`, the source appends `undefined` (heatmap) or throws inside the state updater (pie, line).
- `Demo.CaptureAndSendAsWritten` does not model an exception from `toDataURL`, which sends nothing and leaves the flag alone. Canvas drawing and JPEG encoding are browser APIs.
- The window-resize sizing effects, the recording toggle and the capture interval are left out. They are layout and timer lifecycle. The one thing the interval decides, the flag its closure captured, is an input of `Demo.CaptureAndSendAsWritten`.
- `Emotions.SimulateSpec` models only the ranges of the random draws, not their weights. Draws are indexed by position, not by the order in which the generator produces them. `random.seed(time.time())` and the log file are not modelled.
- server/face_detector.py (OpenCV), server/face_distance_estimator.py (a float random walk), useFaceSocket.jsx and the chart components are not part of this model.

## Findings

| source | as written | input that shows it | evidently intended | confidence | as-written member | corrected member |
|---|---|---|---|---|---|---|
| realtime-visualizer/src/sections/DemoSection.jsx:199-210 | The open-socket branch clears the error only if `connectionError`, as read by the interval's closure, is set. The interval is created at line 230 or 253 and re-created only when `isStreaming` or `selectedVis` changes (line 241), so it reads the flag from the render that created it. | Streaming starts while the socket is still connecting. A tick sets the flag. The socket opens, and the next tick of the same interval still reads the flag as clear: it sends the frame but the flag stays set. The error message then hides the charts (lines 360-372) until the mode changes. | A frame that goes out clears the error flag. | medium, not executed | `Demo.CaptureAndSendAsWritten`, `Demo.StaleFlagStaysSet` | `Demo.CaptureAndSend`, `Demo.RecoversOnReconnect` |
