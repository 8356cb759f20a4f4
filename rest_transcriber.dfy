/** The REST transcriber (src/rest/rest_transcriber.py): per-field
    configuration defaults, the device/compute-type fallback, a model
    loaded on first use, and the `{"success", "data"}` result both
    operations return. The Whisper model itself is a parameter: its
    transcription or alignment either gives the parsed data or fails with
    a message. */
module RestTranscriber {
  import opened Wrappers
  import opened JsonValue
  import opened DeviceConfig
  import opened TranscriptionSettings

  /** What a call into the Whisper model does. */
  datatype Outcome = Succeeds(data: Value) | Fails(message: string)

  /** The model as loaded: the settings it was built with. */
  datatype LoadedModel = LoadedModel(
    modelName: Value, device: Value, computeType: Value,
    deviceIndex: Value, numWorkers: Value, cpuThreads: Value)

  /** What `load_model` gives back: `True` for a model already loaded,
      `None` after loading one, or the exception loading raised. */
  datatype LoadResult = ReturnedTrue | ReturnedNone | LoadRaised

  /** Python compares the configured values with strings, so a value of any
      other type never matches. */
  predicate AcceptedPair(device: Value, computeType: Value) {
    device.Str? && computeType.Str? && Accepted(device.s, computeType.s)
  }

  /** The pair after the mismatch check: kept when accepted, cpu/int8
      otherwise. */
  function NormalizePair(device: Value, computeType: Value): (r: (Value, Value))
    ensures AcceptedPair(r.0, r.1)
    ensures AcceptedPair(device, computeType) <==> r == (device, computeType)
    ensures !AcceptedPair(device, computeType) ==> r == (Str("cpu"), Str("int8"))
  {
    if AcceptedPair(device, computeType) then (device, computeType) else (Str("cpu"), Str("int8"))
  }

  /** On string values the check is the one the streaming transcriber
      uses. */
  lemma NormalizePairAgrees(device: string, computeType: string)
    ensures NormalizePair(Str(device), Str(computeType)) ==
      (Str(Normalize(device, computeType).0), Str(Normalize(device, computeType).1))
  {
  }

  /** `config[key]` when present, the default otherwise. */
  function ConfigOr(config: map<string, Value>, key: string, default: Value): (r: Value)
    ensures key in config ==> r == config[key]
    ensures key !in config ==> r == default
  {
    if key in config then config[key] else default
  }

  /** The result dictionary of both operations. */
  function ResultOf(outcome: Outcome): (r: Value)
    ensures r.Obj? && r.fields.Keys == {"success", "data"}
    ensures Truthy(r.fields["success"]) <==> outcome.Succeeds?
    ensures outcome.Succeeds? ==> r.fields["data"] == outcome.data
    ensures outcome.Fails? ==> r.fields["data"] == Str(outcome.message)
  {
    match outcome
    case Succeeds(data) => Obj(map["success" := Bool(true), "data" := data])
    case Fails(message) => Obj(map["success" := Bool(false), "data" := Str(message)])
  }

  class Transcriber {
    var device: Value
    var modelName: Value
    var computeType: Value
    var deviceIndex: Value
    var numWorkers: Value
    var cpuThreads: Value
    var model: Option<LoadedModel>
    /** How many times a model has been built. */
    ghost var loads: nat

    /** The settings `load_model` builds the model with. */
    function Loaded(): LoadedModel
      reads this
    {
      LoadedModel(modelName, device, computeType, deviceIndex, numWorkers, cpuThreads)
    }

    /** `__init__`: each field takes the configured value or its default
        (cpu, tiny, int8, 0, 1, 4); an unaccepted (device, compute_type)
        pair then falls back to cpu/int8, leaving the other fields as
        configured; no model is loaded yet. */
    constructor (config: map<string, Value>)
      ensures (device, computeType) == NormalizePair(ConfigOr(config, "device", Str("cpu")), ConfigOr(config, "compute_type", Str("int8")))
      ensures modelName == ConfigOr(config, "model", Str("tiny"))
      ensures deviceIndex == ConfigOr(config, "device_index", Int(0))
      ensures numWorkers == ConfigOr(config, "num_workers", Int(1))
      ensures cpuThreads == ConfigOr(config, "cpu_threads", Int(4))
      ensures AcceptedPair(device, computeType)
      ensures model.None? && loads == 0
    {
      var device, computeType;
      if "device" in config {
        device := config["device"];
      } else {
        device := Str("cpu");
      }
      if "model" in config {
        modelName := config["model"];
      } else {
        modelName := Str("tiny");
      }
      if "compute_type" in config {
        computeType := config["compute_type"];
      } else {
        computeType := Str("int8");
      }
      if "device_index" in config {
        deviceIndex := config["device_index"];
      } else {
        deviceIndex := Int(0);
      }
      if "num_workers" in config {
        numWorkers := config["num_workers"];
      } else {
        numWorkers := Int(1);
      }
      if "cpu_threads" in config {
        cpuThreads := config["cpu_threads"];
      } else {
        cpuThreads := Int(4);
      }
      if !AcceptedPair(device, computeType) {
        device := Str("cpu");
        computeType := Str("int8");
      }
      this.device := device;
      this.computeType := computeType;
      model := None;
      loads := 0;
    }

    /** `load_model`: `True` without rebuilding when a model is loaded;
        otherwise one build with the current settings, after which the
        method returns `None`. `buildSucceeds` says whether building the
        model works; when it does not, the exception propagates. */
    method LoadModel(buildSucceeds: bool) returns (r: LoadResult)
      modifies this
      ensures old(model).Some? ==> r == ReturnedTrue && model == old(model) && loads == old(loads)
      ensures old(model).None? && buildSucceeds ==> r == ReturnedNone && model == Some(Loaded()) && loads == old(loads) + 1
      ensures old(model).None? && !buildSucceeds ==> r == LoadRaised && model.None? && loads == old(loads)
      ensures Loaded() == old(Loaded())
    {
      if model.Some? {
        return ReturnedTrue;
      }
      if !buildSucceeds {
        return LoadRaised;
      }
      model := Some(Loaded());
      loads := loads + 1;
      r := ReturnedNone;
    }

    /** `transcribe_audio_file`: the model is loaded first, outside the
        try, so a failed build raises. Otherwise Whisper runs with the
        request's settings merged over the configured defaults, and any
        failure inside comes back as `{"success": False, "data": message}`. */
    method TranscribeAudioFile(settings: Option<map<string, Value>>, transcriptionDefault: map<string, Value>,
                               buildSucceeds: bool, whisper: map<string, Value> -> Outcome)
      returns (raised: bool, result: Value)
      modifies this
      ensures raised <==> old(model).None? && !buildSucceeds
      ensures !raised ==> model.Some? && result == ResultOf(whisper(EffectiveSettings(settings, transcriptionDefault)))
      ensures loads <= old(loads) + 1 && Loaded() == old(Loaded())
    {
      var loaded := LoadModel(buildSucceeds);
      if loaded == LoadRaised {
        return true, Null;
      }
      var defaults := new TranscriptionSettings.Settings(transcriptionDefault);
      var effective := defaults.GetAndUpdateSettings(settings);
      result := ResultOf(whisper(effective));
      raised := false;
    }

    /** `align_audio_file`: the same shape, with the alignment's outcome. */
    method AlignAudioFile(buildSucceeds: bool, alignment: Outcome) returns (raised: bool, result: Value)
      modifies this
      ensures raised <==> old(model).None? && !buildSucceeds
      ensures !raised ==> model.Some? && result == ResultOf(alignment)
      ensures loads <= old(loads) + 1 && Loaded() == old(Loaded())
    {
      var loaded := LoadModel(buildSucceeds);
      if loaded == LoadRaised {
        return true, Null;
      }
      result := ResultOf(alignment);
      raised := false;
    }
  }

  /** The settings Whisper receives: the configured defaults when the
      request has none, otherwise the defaults with the request's known
      keys overridden. */
  function EffectiveSettings(settings: Option<map<string, Value>>, transcriptionDefault: map<string, Value>): (r: map<string, Value>)
    ensures r.Keys == TranscriptionSettings.LiteralDefaults().Keys
  {
    var defaults := TranscriptionSettings.Overridden(TranscriptionSettings.LiteralDefaults(), transcriptionDefault);
    if settings.None? then defaults else TranscriptionSettings.Overridden(defaults, settings.value)
  }

  /** Two loads in a row build the model once: the second returns `True`
      and changes nothing. */
  method LoadTwice(t: Transcriber) returns (first: LoadResult, second: LoadResult)
    requires t.model.None?
    modifies t
    ensures first == ReturnedNone && second == ReturnedTrue
    ensures t.model == Some(t.Loaded()) && t.loads == old(t.loads) + 1
  {
    first := t.LoadModel(true);
    second := t.LoadModel(true);
  }
}
