# Frigate detection dispatch, modelled in Dafny

This project models the detection-dispatch core of Frigate. That covers three files.

- **frigate/network.py**: the length-prefixed wire protocol.
  - `NPSocket.send` writes a 4-byte signed big-endian length, then the payload.
  - `NPSocket.recv` reads the header, raises `Closed` on a short one, and accumulates the body in reads of at most 1024 bytes.
  - The per-connection `handler` of `listen_and_serve` swallows `Closed` and re-raises everything else.
- **frigate/edgetpu.py**: the Edge TPU detectors and their process plumbing.
  - `LocalObjectDetector`: device and model selection, the row-building loop of `detect_raw` and the threshold filter of `detect`.
  - One iteration of the worker loop of `run_detector` / `run_remote`, over the shared queue, buffers, events and `mp.Value` cells.
  - The `EdgeTPUProcess` / `EdgeTPUConnection` supervisor: `stop` and `start_or_restart`.
  - The client side, `RemoteObjectDetector.detect`.
- **frigate/server.py**: the standalone detection server.
  - The backend dispatch on the detector type.
  - `handle_conn`, which answers every framed request with one framed reply, counts the requests and logs every 100th.

The Dafny modules follow that structure:

| file | module | role |
|---|---|---|
| base.dfy | `Base` | `Option`, `Result`, `Min`, `Max`, Python's `int()` on a real |
| network.dfy | `Network` | header packing, framing, the `NPSocket` class over a byte stream, the handler policy |
| detector.dfy | `EdgeTpuDetector` | `LocalObjectDetector`: interpreter selection, `detect_raw`, the filter |
| worker.dfy | `EdgeTpuWorker` | shared channels (`Channels`, `Cell`), the worker step, `RemoteObjectDetector` |
| supervisor.dfy | `EdgeTpuSupervisor` | an abstract `Process`, and `EdgeTpuProcess` with `Stop` and `StartOrRestart` |
| server.dfy | `Server` | backend dispatch, progress logging, `handle_conn` |

## How the code is modelled

- **Byte streams.**
  - Bytes are a `byte` newtype over 0..255.
  - A socket is a class with six parts: the bytes the peer sends before shutting down (`incoming`), a read cursor (`pos`), the bytes written (`outgoing`), a `closed` flag, the read schedule (`grants`) and a ghost log of the body reads requested (`requests`).
  - Partial TCP reads are a schedule of `grants`: each `recv(n)` returns between 1 and `n` bytes, as the next grant allows, while bytes remain. It returns nothing only once the peer has shut down and everything has been read.
- **Reference functions for the imperative code.**
  - `ParseFrame` is the reference meaning of `recv`, and `Recv` is proved to produce it for every read schedule.
  - `RawRows` and `FilterRows` are the reference meanings of the `detect_raw` loop and the `detect` loop, and `DetectRaw` and `FilterLoop` are proved against them.
  - `Serve` is the reference meaning of a whole `handle_conn` session, and `ServerApp.HandleConn` is proved against it.
- **Foreign code becomes inputs.**
  - The TFLite interpreter's four output tensors are an input (`RawOutput`).
  - Loading the Edge TPU delegate is a boolean input.
  - The server's backend is two functions over an opaque `NdArray`. `load` is the `np.load` that ends `recv`: it turns a received body into an array or an exception. `answer` is `detect_raw` followed by the `np.save` inside `send`: it turns an array into reply bytes or an exception.
  - Because `np.load` runs inside `recv`, an undecodable request raises before the counter is incremented, and the model decodes before it counts.
  - Clock readings are parameters.
  - Whether a worker honours SIGTERM within the grace period is a parameter.
- **Shared state.**
  - The detection queue, the input and output segments and the completion events are fields of one `Channels` object, a `seq`, two `map`s and a `set`.
  - A ghost history records the order of the operations on them.
  - Every operation is one sequential step; processes do not run concurrently in the model.

Three behaviours of the code shape the model:

- **The header is signed.** It is packed with `"!i"`, a signed 32-bit integer, not an unsigned one. A payload of 2^31 bytes or more makes `pack` raise `struct.error` before anything is written. A negative declared length is received as an empty body.
- **Order in `start_or_restart`.** `detection_start` is reset to 0 before the running process is stopped, not after (frigate/edgetpu.py:205-207).
- **The timeout of `RemoteObjectDetector.detect` is never detected.** `Event.wait` returns a bool, so `result is None` never holds, and a timed-out request reads the output buffer anyway. That buffer holds the previous request's rows. This is Finding 2; the model keeps both the code as written and the intended behaviour.

## Model

| member | source | states |
|---|---|---|
| Base.TruncToInt | frigate/edgetpu.py:78 | Python's `int()` on a float truncates toward zero: the result is within 1 of the argument, on the zero side |
| Network.PackI32 | frigate/network.py:24 | `pack("!i", n)` is 4 bytes whose top bit is set exactly when n is negative |
| Network.UnpackI32 | frigate/network.py:33 | `unpack("!i", b)` of 4 bytes is a signed 32-bit value, negative exactly when the top bit of the first byte is set |
| Network.UnpackPack | frigate/network.py:24-33 | unpacking a packed header gives back every signed 32-bit length |
| Network.PackUnpack | frigate/network.py:24-33 | packing an unpacked header gives back the same 4 bytes |
| Network.EncodeFrame | frigate/network.py:19-25 | `send` writes the 4-byte header and then exactly the payload; there is no frame (`struct.error`) exactly when the length is 2^31 or more |
| Network.ParseFrame | frigate/network.py:27-46 | `recv` never consumes more than is available; `Closed` consumes everything left; a frame's payload is exactly the bytes after the header it consumed |
| Network.FrameRoundTrip | frigate/network.py:19-46 | a frame written by `send`, followed by any bytes, is received as the original payload and consumes exactly header plus payload |
| Network.FrameOrigin | frigate/network.py:19-46 | every non-empty payload received is the frame that `send` would write for it |
| Network.EmptyFrame | frigate/network.py:33-46 | with a full header, the body is empty exactly when the declared length is zero or negative |
| Network.ChunkLength | frigate/network.py:38-42 | one body read returns no more than requested and no more than available, and returns nothing only when the peer has nothing left |
| Network.BodyStepAsWritten | frigate/network.py:37-44 | one pass of the body loop as written never moves the received count backwards or past the declared length |
| Network.BodyLoopAsWrittenStalls | frigate/network.py:37-44 | as written, once the peer has shut down mid-body, a pass leaves the state unchanged with bytes still owed, so `remain > 0` stays true forever |
| Network.NPSocket.constructor | frigate/network.py:15-17 | a socket over the peer's bytes and the read schedule starts with nothing read, written or closed |
| Network.NPSocket.SendAll | frigate/network.py:24-25 | `sendall` appends exactly its bytes to the output |
| Network.NPSocket.Close | frigate/network.py:30 | `close` marks the socket closed |
| Network.NPSocket.RecvWaitAll | frigate/network.py:28 | `recv(4, MSG_WAITALL)` returns the next 4 bytes, or all that is left when the peer shut down first, and advances the cursor by that much |
| Network.NPSocket.RecvSome | frigate/network.py:42 | `recv(n)` returns a prefix of the unread bytes of at most n bytes, empty exactly when everything has been read, and records the call |
| Network.NPSocket.Send | frigate/network.py:19-25 | the output grows by exactly the frame of the payload when its length fits; otherwise nothing is written and the raise is reported |
| Network.NPSocket.Recv | frigate/network.py:27-46 | for every read schedule, the result and the bytes consumed are those of `ParseFrame`; the socket is closed exactly when `Closed` is raised; each body read asks for min(1024, bytes still owed) with at least 1 byte owed; a short header or a non-positive length performs no body read |
| Network.SendThenRecv | frigate/network.py:19-46 | what `send` writes, read back by `recv` under any read schedule and followed by anything, is the original payload |
| Network.HandlerPolicy | frigate/network.py:60-69 | the handler re-raises exactly the exceptions other than `Closed` (logging "Handler failed"), and reaches the log "Closed" and the socket close exactly when it does not re-raise |
| EdgeTpuDetector.SelectInterpreter | frigate/edgetpu.py:36-62 | the CPU interpreter exactly for device "cpu", with `num_threads` and the model path or "/cpu_model.tflite"; every other device (None as "usb") takes the Edge TPU path with the model path or "/edgetpu_model.tflite"; a failing delegate load re-raises |
| EdgeTpuDetector.NewLocalObjectDetector | frigate/edgetpu.py:29-67 | construction fails exactly when interpreter selection fails, uses the selected interpreter, and has an empty label table when no label file is given |
| EdgeTpuDetector.FirstBelow | frigate/edgetpu.py:96-98 | the index of the first score below the cut-off: every earlier score passes, and the one at that index (if any) fails |
| EdgeTpuDetector.RowsWritten | frigate/edgetpu.py:90-98 | `detect_raw` writes no more rows than there are score slots and no more than 20 |
| EdgeTpuDetector.RawIndexError | frigate/edgetpu.py:96-97 | the loop reads past the last score slot only when `count` exceeds the scores available, at most 20 of them, and every score read passed the 0.4 cut |
| EdgeTpuDetector.RawRows | frigate/edgetpu.py:94-108 | the only failure of `detect_raw` is IndexError; on success each of the 20 rows is either still zero or a written row with score at least 0.4 |
| EdgeTpuDetector.DetectRaw | frigate/edgetpu.py:94-108 | the in-place loop over the zeroed (20, 6) buffer returns exactly `RawRows`: IndexError when it runs past the last score slot, else the table of the first `RowsWritten` rows |
| EdgeTpuDetector.RawRowsShape | frigate/edgetpu.py:94-108 | the table has 20 rows; rows before the cut are the tensors' rows, each with score at least 0.4; all later rows stay zero |
| EdgeTpuDetector.RawRowsTotal | frigate/edgetpu.py:94-98 | `detect_raw` never raises when `count` does not exceed the number of score slots |
| EdgeTpuDetector.FilterRowsPrefix | frigate/edgetpu.py:74-79 | the filter keeps exactly the rows before the first score below the threshold, in order, each mapped to its label, score and box |
| EdgeTpuDetector.FilterRowsFails | frigate/edgetpu.py:74-79 | the filter raises exactly when a row it would keep has a class id missing from the labels, and the exception is a KeyError |
| EdgeTpuDetector.Labelled | frigate/edgetpu.py:77-79 | a row becomes a detection exactly when `int(class id)` is a key of the labels, with that label, the row's score and its box in (y1, x1, y2, x2) order; otherwise KeyError of that key |
| EdgeTpuDetector.FilterRows | frigate/edgetpu.py:74-79 | the filter keeps at most as many detections as rows, each scoring at least the threshold, and can fail only with KeyError |
| EdgeTpuDetector.FilterLoop | frigate/edgetpu.py:74-79 | the appending loop returns exactly `FilterRows` (the same loop is used at lines 332-337) |
| EdgeTpuDetector.Detect | frigate/edgetpu.py:69-81 | `detect` is `detect_raw` followed by the filter, and raises `detect_raw`'s IndexError |
| EdgeTpuDetector.DetectScores | frigate/edgetpu.py:69-108 | for any positive threshold, `detect` returns at most as many detections as rows written, each with score at least 0.4 and at least the threshold |
| EdgeTpuDetector.NonPositiveThresholdKeepsZeroRows | frigate/edgetpu.py:69-108 | at any threshold of 0 or less the zero rows pass the filter: no detections from the interpreter give 20 detections of class 0 with score 0 |
| EdgeTpuDetector.ZeroRowsPass | frigate/edgetpu.py:74-79 | at any threshold of 0 or less, zero rows become detections of label 0, one per row |
| EdgeTpuDetector.UnlabelledDetectorRaises | frigate/edgetpu.py:74-79 | with the empty label table of a detector built without labels (lines 31-32), the filter raises KeyError on the first row that passes the threshold |
| EdgeTpuDetector.FilterExample | frigate/edgetpu.py:74-79 | scores 0.9, 0.7, 0.3, 0, … at the default threshold 0.4 give exactly the first two rows, in order |
| EdgeTpuWorker.Cell.constructor | frigate/edgetpu.py:185-186 | `mp.Value("d", v)` holds v |
| EdgeTpuWorker.Channels.constructor | frigate/edgetpu.py:141-145 | a pool starts with an empty queue, no event set, and the given input and output segments |
| EdgeTpuWorker.Channels.Lookup | frigate/edgetpu.py:152-157 | the frame store returns the slot's frame exactly when the slot has one |
| EdgeTpuWorker.Channels.Put | frigate/edgetpu.py:325 | `put` appends exactly the name to the queue |
| EdgeTpuWorker.Channels.Get | frigate/edgetpu.py:149-151 | `get` on an empty queue is `queue.Empty` and changes nothing; otherwise it removes and returns the oldest name |
| EdgeTpuWorker.Channels.WriteInput | frigate/edgetpu.py:323 | the slot's input segment becomes the tensor; no other segment changes |
| EdgeTpuWorker.Channels.WriteOutput | frigate/edgetpu.py:163 | the slot's output buffer becomes the table; no other buffer changes |
| EdgeTpuWorker.Channels.Clear | frigate/edgetpu.py:324 | only the slot's event is cleared |
| EdgeTpuWorker.Channels.Set | frigate/edgetpu.py:164 | only the slot's event is set |
| EdgeTpuWorker.Ema | frigate/edgetpu.py:167 | the new average lies a tenth of the way from the old average to the sample |
| EdgeTpuWorker.EmaRepeatedDistance | frigate/edgetpu.py:167 | after n equal samples the distance to the sample has shrunk by (9/10)^n |
| EdgeTpuWorker.EmaApproaches | frigate/edgetpu.py:167 | each further equal sample brings the average strictly closer to it, unless it is already there |
| EdgeTpuWorker.WorkerStep | frigate/edgetpu.py:147-167 | an empty queue changes nothing; otherwise exactly the oldest name is popped. A missing frame changes nothing else. A served job writes that slot's buffer with the backend's table and sets that slot's event; every other buffer and event is unchanged, `start` ends at 0 and the average takes the sample. A failing backend or a slot without an output buffer leaves `start` at the job's timestamp |
| EdgeTpuWorker.RemoteObjectDetector.constructor | frigate/edgetpu.py:303-317 | the client is attached to its slot's output buffer |
| EdgeTpuWorker.RemoteObjectDetector.Submit | frigate/edgetpu.py:323-325 | the tensor is copied into the slot's input, the slot's event is cleared and its name appended once to the queue, in that order; nothing else changes |
| EdgeTpuWorker.RemoteObjectDetector.CollectAsWritten | frigate/edgetpu.py:326-337 | as written, the output buffer is filtered whether or not the event was set |
| EdgeTpuWorker.RemoteObjectDetector.Collect | frigate/edgetpu.py:326-337 | a timed-out wait returns no detections; otherwise the filtered output buffer |
| EdgeTpuWorker.SubmitServeCollect | frigate/edgetpu.py:319-339 | a submission served by one worker step returns the filtered table the backend computed for that very tensor, and sets only that slot's event and buffer |
| EdgeTpuWorker.StaleBufferScenario | frigate/edgetpu.py:319-339 | a request nobody served returns the previous request's detection as written, and nothing as intended |
| EdgeTpuSupervisor.StopCalls | frigate/edgetpu.py:195-202 | `stop` always starts with terminate and a join bounded by 30; kill happens exactly when the process outlived that join |
| EdgeTpuSupervisor.Process.constructor | frigate/edgetpu.py:208-222 | a new process has its name, target and arguments, is not started and has had no calls |
| EdgeTpuSupervisor.Process.ExitCode | frigate/edgetpu.py:199 | the exit code is known exactly when the process has ended |
| EdgeTpuSupervisor.Process.IsAlive | frigate/edgetpu.py:206 | a live process has no exit code yet |
| EdgeTpuSupervisor.Process.Start | frigate/edgetpu.py:224 | a started process is alive |
| EdgeTpuSupervisor.Process.Terminate | frigate/edgetpu.py:196 | terminate is recorded and decides nothing by itself |
| EdgeTpuSupervisor.Process.Join | frigate/edgetpu.py:198-202 | a join ends a live process, with code 0, only when it exits within the timeout; a join without a timeout returns only once the process is no longer alive |
| EdgeTpuSupervisor.Process.Kill | frigate/edgetpu.py:201 | kill always ends a live process, with code -9 |
| EdgeTpuSupervisor.EdgeTpuProcess.constructor | frigate/edgetpu.py:170-193 | the average starts at 0.01 and `detection_start` at 0, and one live daemon worker runs the entrypoint with the supervisor's fields |
| EdgeTpuSupervisor.EdgeTpuProcess.Connection | frigate/edgetpu.py:290-301 | the same supervisor with `run_remote` as its entrypoint: name, channels, model path, shape, device and thread count as given, speed 0.01, start 0.0, one live daemon worker started with exactly the constructor's arguments, after resetting the start time |
| EdgeTpuSupervisor.EdgeTpuProcess.Stop | frigate/edgetpu.py:195-202 | the calls are terminate, a join of 30 and, only if the process outlived it, kill and an unbounded join; afterwards the process is not alive |
| EdgeTpuSupervisor.EdgeTpuProcess.StartOrRestart | frigate/edgetpu.py:204-224 | `detection_start` is reset first, then the old process is stopped only if it exists and is alive, then exactly one fresh daemon process named "detector:<name>" is started with the supervisor's fields |
| Server.SelectBackend | frigate/server.py:60-67 | "cpu" builds the backend with device "cpu", "edgetpu" with the configured device, both with the model path and thread count; any other type raises "Not implemented" |
| Server.ServerInterpreter | frigate/server.py:62-65 | type "cpu" always runs the CPU interpreter; "edgetpu" with device "cpu" does too; "edgetpu" with no device opens the "usb" TPU |
| Server.ProgressMarksExact | frigate/server.py:83-84 | a counter value is logged exactly when it is one of the new counter values and a multiple of 100 |
| Server.ProgressMarksCount | frigate/server.py:83-84 | k requests after counter n0 log (n0+k)/100 − n0/100 lines, so k/100 from 0 |
| Server.Answer | frigate/server.py:85-86 | a decoded request is answered with the frame of the backend's reply, unless the backend raises (that exception) or the reply is too long to pack (`struct.error`) |
| Server.Respond | frigate/network.py:46 | the reply payload to a received body: an undecodable body raises `np.load`'s exception, otherwise the backend's answer to the decoded array |
| Server.Serve | frigate/server.py:77-86 | a session never consumes more bytes than the peer sent |
| Server.UndecodableRequestNotCounted | frigate/server.py:80-82 | a request whose body `np.load` rejects ends the session with that exception before the counter is incremented and before anything is sent |
| Server.ServeNeverReturns | frigate/server.py:79-86 | `handle_conn` has no normal exit: every session ends with an exception |
| Server.ServeAnswersEveryRequest | frigate/server.py:79-86 | when the session ends with `Closed`, every request received was counted, and the reply stream holds, in order, exactly the backend's answer to each request |
| Server.ServeFromServe | frigate/server.py:79-86 | running the loop from a state gives that state plus the totals of the whole session |
| Server.ServerApp.constructor | frigate/server.py:72-73 | the counter starts at 0 with no progress line |
| Server.ServerApp.HandleOne | frigate/server.py:80-86 | one pass: `Closed` changes nothing but the read position and the closed flag; an undecodable request raises with the counter unchanged; a decoded request increments the counter once, logs exactly when the new counter is a multiple of 100, and sends exactly its framed reply, or raises without sending |
| Server.ServerApp.HandleConn | frigate/server.py:77-86 | the loop ends with the exception of `Serve`, having counted its decoded requests, logged its progress lines, sent its replies and consumed its bytes |
| Server.ServerApp.ServeConnection | frigate/network.py:60-69 | a `handle_conn` session run under the handler: a `Closed` ending is swallowed and the socket closed; any other exception is re-raised with the socket left as it was |

## Left out

- numpy NPY serialisation (`np.save`, `np.load`): the server's `load` and `answer` are inputs, so which bodies `np.load` rejects and the shape and dtype round trip of `np.save` are numpy's behaviour, not this code's. The client side and the network frames carry payloads as opaque bytes.
- Real sockets and the accept loop: `create_connection`, `create_server`, `accept`, `setblocking`, and one daemon thread per connection. The model serves one connection sequentially.
- The `getpeername` print and the status prints in `handle_conn` and `start`, and the `__main__` block of frigate/network.py.
- The `threading.Lock` in `handle_conn`: with one connection at a time the lock has no effect.
- Concurrency between processes, and the machinery behind it: `mp.Process`, `mp.Queue`, `mp.Event`, `mp.Value`, signal handlers, `setproctitle`, `listen`. Each is abstract state changed one step at a time. The model has no races.
- Shared-memory attach and `RemoteObjectDetector.cleanup` (`unlink`).
- The outer loops of the workers and the `stop_event` flag: the worker is modelled one iteration at a time.
- The wait of `RemoteObjectDetector.detect`: the model does not run a worker during the wait. The wait's outcome is whether the slot's event is set when the caller looks.
- `run_remote`'s network round trip: it is the backend of `WorkerStep`, and a failure of it crashes the worker as in the code. The client connection `NPSocketClient(tf_device.split(':'))` and the missing `Dict` import are Python runtime details.
- TFLite: `load_delegate`, `Interpreter`, `allocate_tensors`, `invoke` and the tensor reads. The four output tensors are an input, and whether the delegate loads is a boolean.
- `load_labels`: the label file is not read; the loaded label table is an input. `SharedMemoryFrameManager` is a map from slot name to frame. `EventsPerSecond` (`fps.update`) is not modelled.
- Clock readings (`datetime.now`): they are parameters of `WorkerStep`.
- Configuration loading, the banner printing and `sys.exit` in `ServerApp.init_config` and `start`, and the `FrigateApp` base class.
- IEEE arithmetic: the float32 scores and boxes and the float64 moving average (`mp.Value("d")`) are `real`, so rounding is not modelled; `int()` of a class id or count truncates toward zero as Python does.
- Network.NPSocket.Recv: reading from a socket that is already closed raises `OSError` in Python; the model's reads ignore `closed`, and no modelled caller reads after `Closed`.
- EdgeTpuWorker.WorkerStep: the 5-unit timeout of `get` is not modelled; an empty queue is the `queue.Empty` outcome.

## Findings

| source | as written | input that shows it | evidently intended | confidence | as-written member | corrected member |
|---|---|---|---|---|---|---|
| frigate/network.py:37-44 | the body loop does not check for a zero-byte `recv`, which a stream socket returns once the peer has shut down | a header declaring 10 bytes followed by 3 bytes and then the peer's shutdown: every later `recv` returns `b''`, `remain` stays 7, and the loop never ends | a zero-byte read mid-body ends the connection like a short header, raising `Closed` | not executed | Network.BodyLoopAsWrittenStalls | Network.NPSocket.Recv |
| frigate/edgetpu.py:326-330 | `result is None` is never true, because `Event.wait` returns a bool | a request that no worker serves within the wait, on a slot whose buffer still holds a previous detection of score 0.9: the stale detection is returned | a timed-out wait returns an empty result | not executed | EdgeTpuWorker.StaleBufferScenario | EdgeTpuWorker.RemoteObjectDetector.Collect |
