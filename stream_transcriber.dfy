/** The streaming transcriber (src/websocket/stream_transcriber.py): a
    Whisper model behind a counter of free worker seats. */
module StreamTranscriber {
  import opened Wrappers
  import opened DeviceConfig

  /** A seat request or a seat return. */
  datatype SeatOp = Get | Return

  /** The free-seat count after a sequence of calls: a request takes a seat
      only when one is free, a return always adds one. */
  function SeatsAfter(available: int, ops: seq<SeatOp>): int {
    if ops == [] then available
    else
      var before := SeatsAfter(available, ops[..|ops| - 1]);
      match ops[|ops| - 1]
      case Get => if before > 0 then before - 1 else before
      case Return => before + 1
  }

  /** How many of the requests were granted. */
  function Granted(available: int, ops: seq<SeatOp>): nat {
    if ops == [] then 0
    else
      var before := SeatsAfter(available, ops[..|ops| - 1]);
      Granted(available, ops[..|ops| - 1]) + (if ops[|ops| - 1] == Get && before > 0 then 1 else 0)
  }

  function Returns(ops: seq<SeatOp>): nat {
    if ops == [] then 0 else Returns(ops[..|ops| - 1]) + (if ops[|ops| - 1] == Return then 1 else 0)
  }

  /** From a non-negative start no call sequence drives the count negative,
      and the count is the start minus granted requests plus returns. */
  lemma {:induction false} SeatsAccounting(available: int, ops: seq<SeatOp>)
    requires available >= 0
    ensures SeatsAfter(available, ops) >= 0
    ensures SeatsAfter(available, ops) == available - Granted(available, ops) + Returns(ops)
  {
    if ops != [] {
      SeatsAccounting(available, ops[..|ops| - 1]);
    }
  }

  /** With no returns, at most `available` requests are ever granted. */
  lemma GrantsBoundedWithoutReturns(available: int, ops: seq<SeatOp>)
    requires available >= 0
    requires forall k :: 0 <= k < |ops| ==> ops[k] == Get
    ensures Granted(available, ops) <= available
  {
    SeatsAccounting(available, ops);
    assert Returns(ops) == 0 by {
      ReturnsNone(ops);
    }
  }

  lemma {:induction false} ReturnsNone(ops: seq<SeatOp>)
    requires forall k :: 0 <= k < |ops| ==> ops[k] == Get
    ensures Returns(ops) == 0
  {
    if ops != [] {
      ReturnsNone(ops[..|ops| - 1]);
    }
  }

  class Transcriber {
    const modelName: string
    const device: string
    const deviceIndex: seq<int>
    const computeType: string
    const cpuThreads: int
    const numWorkers: int
    /** The (device, compute_type) the loaded model runs with, if loaded. */
    var model: Option<(string, string)>
    var availableWorkers: int

    /** `__init__`: the model is loaded at once; `loadSucceeds` says whether
        constructing the Whisper model succeeds. */
    constructor (modelName: string, device: string, deviceIndex: seq<int>, computeType: string,
                 cpuThreads: int, numWorkers: int, loadSucceeds: bool)
      ensures this.modelName == modelName && this.device == device && this.deviceIndex == deviceIndex
      ensures this.computeType == computeType && this.cpuThreads == cpuThreads && this.numWorkers == numWorkers
      ensures availableWorkers == numWorkers
      ensures model == (if loadSucceeds then Some(Normalize(device, computeType)) else None)
    {
      this.modelName := modelName;
      this.device := device;
      this.deviceIndex := deviceIndex;
      this.computeType := computeType;
      this.cpuThreads := cpuThreads;
      this.numWorkers := numWorkers;
      model := None;
      availableWorkers := numWorkers;
      new;
      var _ := LoadModel(loadSucceeds);
    }

    /** `for_gpu`: one CUDA worker with float16 and no CPU threads. */
    static method ForGpu(modelName: string, deviceIndex: seq<int>, loadSucceeds: bool) returns (t: Transcriber)
      ensures fresh(t)
      ensures t.device == "cuda" && t.computeType == "float16" && t.cpuThreads == 0 && t.numWorkers == 1
      ensures t.modelName == modelName && t.deviceIndex == deviceIndex && t.availableWorkers == 1
    {
      t := new Transcriber(modelName, "cuda", deviceIndex, "float16", 0, 1, loadSucceeds);
    }

    /** `for_cpu`: int8 on CPU device index 1. */
    static method ForCpu(modelName: string, cpuThreads: int, numWorkers: int, loadSucceeds: bool) returns (t: Transcriber)
      ensures fresh(t)
      ensures t.device == "cpu" && t.computeType == "int8" && t.deviceIndex == [1]
      ensures t.modelName == modelName && t.cpuThreads == cpuThreads && t.numWorkers == numWorkers
      ensures t.availableWorkers == numWorkers
    {
      t := new Transcriber(modelName, "cpu", [1], "int8", cpuThreads, numWorkers, loadSucceeds);
    }

    /** `_load_model`: true at once when a model is loaded; otherwise the
        model is built with the configured pair when it is accepted and with
        cpu/int8 otherwise, and a failure to build it gives false. */
    method LoadModel(loadSucceeds: bool) returns (ok: bool)
      modifies this
      ensures old(model).Some? ==> ok && model == old(model)
      ensures old(model).None? ==>
        ok == loadSucceeds && model == (if loadSucceeds then Some(Normalize(device, computeType)) else None)
      ensures availableWorkers == old(availableWorkers)
    {
      if model.Some? {
        return true;
      }
      if !loadSucceeds {
        return false;
      }
      if (device == "cpu" && computeType == "int8")
        || (device == "cuda" && computeType == "float16")
        || (device == "cuda" && computeType == "int8_float16")
      {
        model := Some((device, computeType));
      } else {
        model := Some(("cpu", "int8"));
      }
      return true;
    }

    function WorkerAvailable(): (r: bool)
      reads this
      ensures r <==> availableWorkers > 0
    {
      availableWorkers > 0
    }

    /** `get_worker`: the transcribe callable is handed out (`granted`) only
        when a seat is free, taking that seat. */
    method GetWorker() returns (granted: bool)
      modifies this
      ensures granted == (old(availableWorkers) > 0)
      ensures availableWorkers == SeatsAfter(old(availableWorkers), [Get])
      ensures model == old(model)
    {
      if WorkerAvailable() {
        availableWorkers := availableWorkers - 1;
        return true;
      }
      return false;
    }

    /** `return_worker`: a seat is added back, without any cap. */
    method ReturnWorker()
      modifies this
      ensures availableWorkers == SeatsAfter(old(availableWorkers), [Return])
      ensures model == old(model)
    {
      availableWorkers := availableWorkers + 1;
    }
  }

  /** Returns are not capped: one unmatched return lifts the count above
      the configured number of workers. */
  lemma UnmatchedReturnExceedsWorkers(numWorkers: int)
    ensures SeatsAfter(numWorkers, [Return]) == numWorkers + 1
  {
    assert [Return][..0] == [];
  }
}
