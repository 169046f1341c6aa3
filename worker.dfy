/**
 * The shared request/response channel of frigate/edgetpu.py: the detection
 * queue of slot names, each slot's input and output shared-memory buffers and
 * completion event, the shared `mp.Value` cells, one iteration of the worker
 * loop (`run_detector` / `run_remote`), and the client side
 * (`RemoteObjectDetector.detect`). Processes are not modelled; every operation
 * is one sequential step on the shared state.
 */
module EdgeTpuWorker {
  import opened Base
  import opened EdgeTpuDetector

  /** An input frame of shape (1, H, W, 3); its samples are opaque here. */
  type Tensor = seq<int>

  /** What a backend returns for one frame: the 20-row table, or the exception it raised. */
  datatype Reply = Detections(table: Table) | Failure(reason: string)

  /** The operations on a pool's shared state, in the order they happen. */
  datatype Op =
    | Enqueued(slot: string)
    | Dequeued(slot: string)
    | InputWritten(slot: string)
    | EventCleared(slot: string)
    | OutputWritten(slot: string)
    | EventSet(slot: string)

  /** `mp.Value("d")`: a floating-point cell shared between processes. */
  class Cell {
    var value: real

    constructor (v: real)
      ensures value == v
    {
      value := v;
    }
  }

  /** The state shared by the clients and the workers of one detector pool. */
  class Channels {
    /** The detection queue of slot names. */
    var queue: seq<string>
    /** Each slot's input segment, named by the slot; the frame store reads these. */
    var inputs: map<string, Tensor>
    /** Each slot's "out-<name>" segment. */
    var outputs: map<string, Table>
    /** The slots whose completion event is set. */
    var events: set<string>
    ghost var history: seq<Op>

    constructor (inputs: map<string, Tensor>, outputs: map<string, Table>)
      ensures this.inputs == inputs && this.outputs == outputs
      ensures queue == [] && events == {} && history == []
    {
      this.inputs := inputs;
      this.outputs := outputs;
      queue := [];
      events := {};
      history := [];
    }

    /** `frame_manager.get(name, shape)`: the slot's input frame, or None when it has no segment. */
    function Lookup(name: string): (f: Option<Tensor>)
      reads this
      ensures f.Some? <==> name in inputs
      ensures f.Some? ==> f.value == inputs[name]
    {
      if name in inputs then Some(inputs[name]) else None
    }

    /** `detection_queue.put(name)`. */
    method Put(name: string)
      modifies this`queue, this`history
      ensures queue == old(queue) + [name]
      ensures history == old(history) + [Enqueued(name)]
    {
      queue := queue + [name];
      history := history + [Enqueued(name)];
    }

    /** `detection_queue.get(timeout=5)`: the oldest name, or None (queue.Empty) when there is none. */
    method Get() returns (name: Option<string>)
      modifies this`queue, this`history
      ensures old(queue) == [] ==> name == None && queue == [] && history == old(history)
      ensures old(queue) != [] ==> name == Some(old(queue)[0]) && queue == old(queue)[1..]
                                   && history == old(history) + [Dequeued(old(queue)[0])]
    {
      if queue == [] {
        return None;
      }
      name := Some(queue[0]);
      history := history + [Dequeued(queue[0])];
      queue := queue[1..];
    }

    /** `np_shm[:] = tensor_input[:]`. */
    method WriteInput(name: string, t: Tensor)
      modifies this`inputs, this`history
      ensures inputs == old(inputs)[name := t]
      ensures history == old(history) + [InputWritten(name)]
    {
      inputs := inputs[name := t];
      history := history + [InputWritten(name)];
    }

    /** `outputs[name]["np"][:] = detections[:]`. */
    method WriteOutput(name: string, t: Table)
      requires name in outputs
      modifies this`outputs, this`history
      ensures outputs == old(outputs)[name := t]
      ensures history == old(history) + [OutputWritten(name)]
    {
      outputs := outputs[name := t];
      history := history + [OutputWritten(name)];
    }

    /** `event.clear()`. */
    method Clear(name: string)
      modifies this`events, this`history
      ensures events == old(events) - {name}
      ensures history == old(history) + [EventCleared(name)]
    {
      events := events - {name};
      history := history + [EventCleared(name)];
    }

    /** `out_events[name].set()`. */
    method Set(name: string)
      modifies this`events, this`history
      ensures events == old(events) + {name}
      ensures history == old(history) + [EventSet(name)]
    {
      events := events + {name};
      history := history + [EventSet(name)];
    }
  }

  // ---------------------------------------------------------------------------
  // The moving average of inference time

  /** `(avg * 9 + duration) / 10`: the new average is a tenth of the way from the old one to the sample. */
  function Ema(avg: real, duration: real): (r: real)
    ensures r - duration == (avg - duration) * (9.0 / 10.0)
  {
    (avg * 9.0 + duration) / 10.0
  }

  /** The average after n samples that all took `duration`. */
  function EmaRepeated(avg: real, duration: real, n: nat): real
    decreases n
  {
    if n == 0 then avg else Ema(EmaRepeated(avg, duration, n - 1), duration)
  }

  function Power(x: real, n: nat): real
    decreases n
  {
    if n == 0 then 1.0 else x * Power(x, n - 1)
  }

  /** After n identical samples the distance to the sample has shrunk by the factor (9/10)^n. */
  lemma {:induction false} EmaRepeatedDistance(avg: real, duration: real, n: nat)
    ensures EmaRepeated(avg, duration, n) - duration == (avg - duration) * Power(9.0 / 10.0, n)
    decreases n
  {
    if n > 0 {
      EmaRepeatedDistance(avg, duration, n - 1);
      var e := EmaRepeated(avg, duration, n - 1);
      assert Ema(e, duration) - duration == (e - duration) * (9.0 / 10.0);
    }
  }

  /** Each further identical sample brings the average strictly closer to it, unless it is already there. */
  lemma EmaApproaches(avg: real, duration: real)
    ensures avg != duration ==> Abs(Ema(avg, duration) - duration) < Abs(avg - duration)
    ensures avg == duration ==> Ema(avg, duration) == duration
  {
  }

  function Abs(x: real): real { if x < 0.0 then -x else x }

  // ---------------------------------------------------------------------------
  // One iteration of the worker loop

  /** How one iteration of the worker loop ends. */
  datatype StepOutcome =
    | Idle                              // queue.Empty within the 5-unit wait: `continue`
    | Dropped(slot: string)             // no frame for the slot: `continue`, no event
    | Served(slot: string)              // result written and the event set
    | Crashed(slot: string, reason: string)  // an exception ends the worker process

  /**
   * One iteration of the `while not stop_event.is_set()` loop of
   * `run_detector` (backend = `detect_raw`) and of `run_remote`'s inner loop
   * (backend = the network round trip). `startedAt` and `finishedAt` are the
   * two clock readings.
   */
  method WorkerStep(ch: Channels, avgSpeed: Cell, start: Cell, backend: Tensor -> Reply, startedAt: real, finishedAt: real)
    returns (o: StepOutcome)
    requires avgSpeed != start
    modifies ch, avgSpeed, start
    ensures ch.inputs == old(ch.inputs)
    ensures old(ch.queue) == [] ==> o == Idle
    ensures old(ch.queue) == [] ==> ch.queue == [] && ch.history == old(ch.history)
    ensures old(ch.queue) != [] ==> ch.queue == old(ch.queue)[1..] && o != Idle && o.slot == old(ch.queue)[0]
    ensures o.Dropped? <==> old(ch.queue) != [] && old(ch.Lookup(ch.queue[0])).None?
    ensures o.Served? <==> old(ch.queue) != [] && old(ch.Lookup(ch.queue[0])).Some?
                           && backend(old(ch.inputs)[old(ch.queue)[0]]).Detections? && old(ch.queue)[0] in old(ch.outputs)
    // Nothing but the queue changes when the queue was empty or the job is dropped.
    ensures (o.Idle? || o.Dropped?) ==>
      ch.outputs == old(ch.outputs) && ch.events == old(ch.events)
      && start.value == old(start.value) && avgSpeed.value == old(avgSpeed.value)
    ensures o.Dropped? ==> ch.history == old(ch.history) + [Dequeued(o.slot)]
    // A served job writes that slot's buffer and event only, clears `start` and updates the average.
    ensures o.Served? ==>
      && ch.outputs == old(ch.outputs)[o.slot := backend(old(ch.inputs)[o.slot]).table]
      && ch.events == old(ch.events) + {o.slot}
      && start.value == 0.0
      && avgSpeed.value == Ema(old(avgSpeed.value), finishedAt - startedAt)
      && ch.history == old(ch.history) + [Dequeued(o.slot), OutputWritten(o.slot), EventSet(o.slot)]
    // A failing backend or an unknown slot leaves the timestamp of the job in `start`.
    ensures o.Crashed? ==>
      && ch.outputs == old(ch.outputs) && ch.events == old(ch.events)
      && start.value == startedAt && avgSpeed.value == old(avgSpeed.value)
      && ch.history == old(ch.history) + [Dequeued(o.slot)]
  {
    var got := ch.Get();
    if got.None? {
      return Idle;
    }
    var connectionId := got.value;
    var inputFrame := ch.Lookup(connectionId);
    if inputFrame.None? {
      return Dropped(connectionId);
    }
    start.value := startedAt;
    var reply := backend(inputFrame.value);
    if reply.Failure? {
      return Crashed(connectionId, reply.reason);
    }
    var duration := finishedAt - start.value;
    if connectionId !in ch.outputs {
      return Crashed(connectionId, "KeyError");
    }
    ch.WriteOutput(connectionId, reply.table);
    ch.Set(connectionId);
    start.value := 0.0;
    avgSpeed.value := Ema(avgSpeed.value, duration);
    return Served(connectionId);
  }

  // ---------------------------------------------------------------------------
  // The client side

  /** `RemoteObjectDetector`: a slot name, its label table and the pool it submits to. */
  class RemoteObjectDetector {
    const name: string
    const labels: map<int, string>
    const ch: Channels

    /** The slot's output segment exists (the constructor attaches it). */
    ghost predicate Valid()
      reads this, ch
    {
      name in ch.outputs
    }

    constructor (name: string, labels: map<int, string>, ch: Channels)
      requires name in ch.outputs
      ensures this.name == name && this.labels == labels && this.ch == ch
      ensures Valid()
    {
      this.name := name;
      this.labels := labels;
      this.ch := ch;
    }

    /** The submission half of `detect`: copy the tensor in, clear the event, enqueue the name, in that order. */
    method Submit(tensor: Tensor)
      requires Valid()
      modifies ch
      ensures Valid()
      ensures ch.inputs == old(ch.inputs)[name := tensor]
      ensures ch.events == old(ch.events) - {name}
      ensures ch.queue == old(ch.queue) + [name]
      ensures ch.outputs == old(ch.outputs)
      ensures ch.history == old(ch.history) + [InputWritten(name), EventCleared(name), Enqueued(name)]
    {
      ch.WriteInput(name, tensor);
      ch.Clear(name);
      ch.Put(name);
    }

    /**
     * The collection half of `detect` AS WRITTEN: `event.wait` returns a
     * bool, so `result is None` never holds and the output buffer is read and
     * filtered whether or not the event was set.
     */
    method CollectAsWritten(threshold: real) returns (r: Result<seq<Detection>, Fault>)
      requires Valid()
      ensures r == FilterRows(ch.outputs[name], threshold, labels)
    {
      var result := name in ch.events;
      r := FilterLoop(ch.outputs[name], threshold, labels);
    }

    /** The collection half of `detect` as intended: nothing when the wait timed out, the filtered buffer otherwise. */
    method Collect(threshold: real) returns (r: Result<seq<Detection>, Fault>)
      requires Valid()
      ensures name !in ch.events ==> r == Ok([])
      ensures name in ch.events ==> r == FilterRows(ch.outputs[name], threshold, labels)
    {
      var result := name in ch.events;
      if !result {
        return Ok([]);
      }
      r := FilterLoop(ch.outputs[name], threshold, labels);
    }
  }

  /**
   * Exactly-once delivery on one slot: a submission followed by one worker
   * step on a queue holding nothing else returns the backend's table for that
   * very tensor, filtered and labelled.
   */
  method SubmitServeCollect(client: RemoteObjectDetector, avgSpeed: Cell, start: Cell, backend: Tensor -> Reply,
                            tensor: Tensor, startedAt: real, finishedAt: real, threshold: real)
    returns (r: Result<seq<Detection>, Fault>)
    requires client.Valid() && client.ch.queue == [] && backend(tensor).Detections?
    requires avgSpeed != start
    modifies client.ch, avgSpeed, start
    ensures client.ch.events == old(client.ch.events) + {client.name}
    ensures client.ch.outputs == old(client.ch.outputs)[client.name := backend(tensor).table]
    ensures r == FilterRows(backend(tensor).table, threshold, client.labels)
  {
    client.Submit(tensor);
    var o := WorkerStep(client.ch, avgSpeed, start, backend, startedAt, finishedAt);
    assert o == Served(client.name);
    r := client.Collect(threshold);
  }

  /**
   * Finding: a request nobody serves before the wait ends returns the stale
   * buffer of the previous request as written, and nothing as intended.
   */
  method StaleBufferScenario() returns (asWritten: Result<seq<Detection>, Fault>, intended: Result<seq<Detection>, Fault>)
    ensures asWritten == Ok([Detection("person", 0.9, (0.1, 0.2, 0.3, 0.4))])
    ensures intended == Ok([])
  {
    var stale: Table := [Row(0.0, 0.9, 0.1, 0.2, 0.3, 0.4)] + seq(19, _ => ZERO_ROW);
    var ch := new Channels(map[], map["cam" := stale]);
    var client := new RemoteObjectDetector("cam", map[0 := "person"], ch);
    ch.Set("cam");
    client.Submit([1, 2, 3]);
    asWritten := client.CollectAsWritten(DEFAULT_THRESHOLD);
    intended := client.Collect(DEFAULT_THRESHOLD);
    assert stale[1..][0].score < DEFAULT_THRESHOLD;
    assert TruncToInt(0.0) == 0;
    assert FilterRows(stale[1..], DEFAULT_THRESHOLD, map[0 := "person"]) == Ok([]);
    var d := Detection("person", 0.9, (0.1, 0.2, 0.3, 0.4));
    assert Labelled(stale[0], map[0 := "person"]) == Ok(d);
    assert [d] + [] == [d];
  }
}
