/**
 * `EdgeTPUProcess` of frigate/edgetpu.py: the supervisor that owns one
 * detector worker process, restarts it and stops it with an escalation from
 * terminate to kill. The operating-system process is abstract: its liveness,
 * its exit code and the calls made on it.
 */
module EdgeTpuSupervisor {
  import opened Base
  import opened EdgeTpuWorker

  /** The function the worker process runs: `run_detector`, or `run_remote` for `EdgeTPUConnection`. */
  datatype Entrypoint = RunDetector | RunRemote

  /** The arguments `start_or_restart` passes to the new process, in the source's order. */
  datatype WorkerArgs = WorkerArgs(
    name: string, channels: Channels, avgSpeed: Cell, start: Cell,
    modelPath: Option<string>, modelShape: (int, int), tfDevice: Option<string>, numThreads: int)

  datatype ProcState = NotStarted | Alive | Exited(code: int)

  /** The calls made on an `mp.Process`. */
  datatype ProcCall = StartCall | TerminateCall | JoinCall(timeout: Option<int>) | KillCall

  /** The bound of the graceful join in `stop`. */
  const GRACE_PERIOD: int := 30

  /** The exit code `multiprocessing` reports for a process ended by SIGKILL. */
  const KILLED_EXIT_CODE: int := -9

  /** The calls `stop` makes: terminate, a bounded join, then kill and an unbounded join only if the process outlived the join. */
  function StopCalls(outlivedJoin: bool): (cs: seq<ProcCall>)
    ensures |cs| >= 2 && cs[..2] == [TerminateCall, JoinCall(Some(GRACE_PERIOD))]
    ensures KillCall in cs <==> outlivedJoin
  {
    [TerminateCall, JoinCall(Some(GRACE_PERIOD))] + (if outlivedJoin then [KillCall, JoinCall(None)] else [])
  }

  /** An `mp.Process` seen from the supervisor. */
  class Process {
    const name: string
    const target: Entrypoint
    const args: WorkerArgs
    var daemon: bool
    var state: ProcState
    var calls: seq<ProcCall>

    constructor (name: string, target: Entrypoint, args: WorkerArgs)
      ensures this.name == name && this.target == target && this.args == args
      ensures !daemon && state == NotStarted && calls == []
    {
      this.name := name;
      this.target := target;
      this.args := args;
      daemon := false;
      state := NotStarted;
      calls := [];
    }

    /** `is_alive()`: a live process has no exit code yet. */
    predicate IsAlive(): (b: bool)
      reads this
      ensures b ==> ExitCode().None?
    {
      state == Alive
    }

    /** `exitcode`: None until the process has ended. */
    function ExitCode(): (c: Option<int>)
      reads this
      ensures c.Some? <==> state.Exited?
    {
      if state.Exited? then Some(state.code) else None
    }

    method Start()
      requires state == NotStarted
      modifies this`state, this`calls
      ensures state == Alive && calls == old(calls) + [StartCall]
    {
      state := Alive;
      calls := calls + [StartCall];
    }

    /** `terminate()`: sends SIGTERM; whether the worker then exits is seen at the next join. */
    method Terminate()
      modifies this`calls
      ensures calls == old(calls) + [TerminateCall]
    {
      calls := calls + [TerminateCall];
    }

    /**
     * `join(timeout)`: `exits` says whether the process ends before the
     * timeout. A worker that honours SIGTERM leaves its loop and returns, with
     * exit code 0. A `join()` without a timeout returns only once the process
     * has ended, so it is only ever called with `exits` holding.
     */
    method Join(timeout: Option<int>, exits: bool)
      requires timeout.None? ==> exits
      modifies this`state, this`calls
      ensures calls == old(calls) + [JoinCall(timeout)]
      ensures state == if old(state) == Alive && exits then Exited(0) else old(state)
      ensures timeout.None? ==> state != Alive
    {
      if state == Alive && exits {
        state := Exited(0);
      }
      calls := calls + [JoinCall(timeout)];
    }

    /** `kill()`: SIGKILL always ends the process. */
    method Kill()
      modifies this`state, this`calls
      ensures calls == old(calls) + [KillCall]
      ensures state == if old(state) == Alive then Exited(KILLED_EXIT_CODE) else old(state)
    {
      if state == Alive {
        state := Exited(KILLED_EXIT_CODE);
      }
      calls := calls + [KillCall];
    }
  }

  /** What the supervisor has done, in order. */
  datatype Action = ResetDetectionStart | StopWorker | SpawnWorker

  /** `EdgeTPUProcess`, and `EdgeTPUConnection` through the `Connection` constructor. */
  class EdgeTpuProcess {
    const name: string
    const channels: Channels
    const avgInferenceSpeed: Cell
    const detectionStart: Cell
    const modelPath: Option<string>
    const modelShape: (int, int)
    const tfDevice: Option<string>
    const numThreads: int
    const entrypoint: Entrypoint
    var detectProcess: Process?
    ghost var actions: seq<Action>

    ghost predicate Valid()
      reads this, detectProcess
    {
      avgInferenceSpeed != detectionStart &&
      (detectProcess != null ==> detectProcess.state != NotStarted)
    }

    /** The arguments every worker process of this supervisor is started with. */
    function Args(): WorkerArgs
    {
      WorkerArgs(name, channels, avgInferenceSpeed, detectionStart, modelPath, modelShape, tfDevice, numThreads)
    }

    /** `EdgeTPUProcess.__init__`: fresh shared cells (average 0.01, start 0) and a first worker. */
    constructor (name: string, channels: Channels, modelPath: Option<string>, modelShape: (int, int),
                 tfDevice: Option<string>, numThreads: int, entrypoint: Entrypoint)
      ensures Valid()
      ensures this.name == name && this.channels == channels && this.modelPath == modelPath
      ensures this.modelShape == modelShape && this.tfDevice == tfDevice
      ensures this.numThreads == numThreads && this.entrypoint == entrypoint
      ensures fresh(avgInferenceSpeed) && fresh(detectionStart)
      ensures avgInferenceSpeed.value == 0.01 && detectionStart.value == 0.0
      ensures detectProcess != null && fresh(detectProcess) && detectProcess.IsAlive() && detectProcess.daemon
      ensures detectProcess.args == Args() && detectProcess.target == entrypoint
      ensures actions == [ResetDetectionStart, SpawnWorker]
    {
      this.name := name;
      this.channels := channels;
      this.modelPath := modelPath;
      this.modelShape := modelShape;
      this.tfDevice := tfDevice;
      this.numThreads := numThreads;
      this.entrypoint := entrypoint;
      avgInferenceSpeed := new Cell(0.01);
      detectionStart := new Cell(0.0);
      detectProcess := null;
      actions := [];
      new;
      StartOrRestart(false);
    }

    /** `EdgeTPUConnection.__init__`: the same supervisor, running `run_remote`. */
    constructor Connection(name: string, channels: Channels, modelPath: Option<string>, modelShape: (int, int),
                           tfDevice: Option<string>, numThreads: int)
      ensures Valid()
      ensures this.name == name && this.channels == channels && this.modelPath == modelPath
      ensures this.modelShape == modelShape && this.tfDevice == tfDevice
      ensures this.numThreads == numThreads && this.entrypoint == RunRemote
      ensures fresh(avgInferenceSpeed) && fresh(detectionStart)
      ensures avgInferenceSpeed.value == 0.01 && detectionStart.value == 0.0
      ensures detectProcess != null && fresh(detectProcess) && detectProcess.IsAlive() && detectProcess.daemon
      ensures detectProcess.args == Args() && detectProcess.target == RunRemote
      ensures actions == [ResetDetectionStart, SpawnWorker]
    {
      this.name := name;
      this.channels := channels;
      this.modelPath := modelPath;
      this.modelShape := modelShape;
      this.tfDevice := tfDevice;
      this.numThreads := numThreads;
      this.entrypoint := RunRemote;
      avgInferenceSpeed := new Cell(0.01);
      detectionStart := new Cell(0.0);
      detectProcess := null;
      actions := [];
      new;
      StartOrRestart(false);
    }

    /**
     * `stop`: terminate, join for at most 30 units, and only if the exit code
     * is still None, kill and join without bound. Afterwards the process is
     * not alive. `exitsWithinGrace` says whether the worker honours SIGTERM
     * within the grace period.
     */
    method Stop(exitsWithinGrace: bool)
      requires Valid() && detectProcess != null
      modifies detectProcess, this`actions
      ensures Valid()
      ensures detectProcess.calls == old(detectProcess.calls) + StopCalls(old(detectProcess.state) == Alive && !exitsWithinGrace)
      ensures !detectProcess.IsAlive()
      ensures old(detectProcess.state) == Alive ==>
        detectProcess.state == if exitsWithinGrace then Exited(0) else Exited(KILLED_EXIT_CODE)
      ensures old(detectProcess.state) != Alive ==> detectProcess.state == old(detectProcess.state)
      ensures actions == old(actions) + [StopWorker]
    {
      detectProcess.Terminate();
      detectProcess.Join(Some(GRACE_PERIOD), exitsWithinGrace);
      if detectProcess.ExitCode().None? {
        detectProcess.Kill();
        detectProcess.Join(None, true);
      }
      actions := actions + [StopWorker];
    }

    /**
     * `start_or_restart`: clear `detection_start` first, stop the current
     * process only if there is one and it is alive, then start exactly one
     * fresh daemon process with this supervisor's fields as arguments.
     */
    method StartOrRestart(exitsWithinGrace: bool)
      requires Valid()
      modifies this`detectProcess, this`actions, detectionStart, detectProcess
      ensures Valid()
      ensures detectionStart.value == 0.0
      ensures detectProcess != null && fresh(detectProcess)
      ensures detectProcess.IsAlive() && detectProcess.daemon && detectProcess.calls == [StartCall]
      ensures detectProcess.args == Args() && detectProcess.target == entrypoint
      ensures detectProcess.name == "detector:" + name
      ensures var wasAlive := old(detectProcess) != null && old(detectProcess.state) == Alive;
        actions == old(actions) + [ResetDetectionStart] + (if wasAlive then [StopWorker] else []) + [SpawnWorker]
      ensures old(detectProcess) != null ==> !old(detectProcess).IsAlive()
      ensures old(detectProcess) != null && old(detectProcess.state) == Alive ==>
        old(detectProcess).calls == old(detectProcess.calls) + StopCalls(!exitsWithinGrace)
      ensures old(detectProcess) != null && old(detectProcess.state) != Alive ==>
        old(detectProcess).calls == old(detectProcess.calls) && old(detectProcess).state == old(detectProcess.state)
    {
      detectionStart.value := 0.0;
      actions := actions + [ResetDetectionStart];
      if detectProcess != null && detectProcess.IsAlive() {
        Stop(exitsWithinGrace);
      }
      var p := new Process("detector:" + name, entrypoint, Args());
      p.daemon := true;
      p.Start();
      detectProcess := p;
      actions := actions + [SpawnWorker];
    }
  }
}
