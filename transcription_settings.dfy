/** The transcription settings (src/helper/transcription_settings.py): a
    dictionary of literal defaults for the Whisper decoder, overridden
    first by the configuration's `transcription_default` entry and then
    per request. Both overrides use the one rule `Overridden`: a key
    already in the defaults takes the other dictionary's value, and no key
    is added. */
module TranscriptionSettings {
  import opened Wrappers
  import opened JsonValue

  /** `base` with every key it shares with `updates` taken from `updates`. */
  function Overridden(base: map<string, Value>, updates: map<string, Value>): map<string, Value> {
    map k | k in base :: if k in updates then updates[k] else base[k]
  }

  /** The key set is the base's; shared keys take the new value, the others
      keep the old one. */
  lemma OverriddenFields(base: map<string, Value>, updates: map<string, Value>)
    ensures Overridden(base, updates).Keys == base.Keys
    ensures forall k :: k in base && k in updates ==> Overridden(base, updates)[k] == updates[k]
    ensures forall k :: k in base && k !in updates ==> Overridden(base, updates)[k] == base[k]
  {
  }

  /** Overriding twice with the same values changes nothing more, and
      overriding with nothing, or with the base itself, is the identity. */
  lemma OverriddenIdempotent(base: map<string, Value>, updates: map<string, Value>)
    ensures Overridden(Overridden(base, updates), updates) == Overridden(base, updates)
    ensures Overridden(base, map[]) == base
    ensures Overridden(base, base) == base
  {
  }

  /** Keys unknown to the base make no difference. */
  lemma OverriddenIgnoresUnknown(base: map<string, Value>, updates: map<string, Value>, k: string, v: Value)
    requires k !in base
    ensures Overridden(base, updates[k := v]) == Overridden(base, updates)
  {
  }

  /** The literal defaults of `__init__`. */
  function LiteralDefaults(): map<string, Value> {
    map[
      "language" := Null,
      "task" := Str("transcribe"),
      "beam_size" := Int(5),
      "best_of" := Int(5),
      "patience" := Real(1.0),
      "length_penalty" := Real(1.0),
      "repetition_penalty" := Real(1.0),
      "no_repeat_ngram_size" := Int(0),
      "temperature" := Arr([Int(0), Real(0.2), Real(0.4), Real(0.6), Real(0.8), Int(1)]),
      "compression_ratio_threshold" := Real(2.4),
      "log_prob_threshold" := Int(-1),
      "no_speech_threshold" := Real(0.6),
      "condition_on_previous_text" := Bool(true),
      "prompt_reset_on_temperature" := Real(0.5),
      "initial_prompt" := Null,
      "prefix" := Null,
      "suppress_blank" := Bool(true),
      "suppress_tokens" := Arr([Int(-1)]),
      "without_timestamps" := Bool(false),
      "max_initial_timestamp" := Int(1),
      "word_timestamps" := Bool(true),
      "prepend_punctuations" := Str("\"'\U{201C}\U{00BF}([{-"),
      "append_punctuations" := Str("\"'.\U{3002},\U{FF0C}!\U{FF01}?\U{FF1F}:\U{FF1A}\U{201D})]}\U{3001}"),
      "vad_filter" := Bool(true),
      "vad_parameters" := Null
    ]
  }

  class Settings {
    var defaultSettings: map<string, Value>

    /** `__init__`: the literal defaults, then the configuration's
        `transcription_default` applied over them, so configured values
        win for known keys. */
    constructor (transcriptionDefault: map<string, Value>)
      ensures defaultSettings == Overridden(LiteralDefaults(), transcriptionDefault)
    {
      defaultSettings := LiteralDefaults();
      new;
      ApplyConfigDefaults(transcriptionDefault);
    }

    /** `apply_config_defaults`: every default the configuration also names
        takes the configured value; no key is added. */
    method ApplyConfigDefaults(config: map<string, Value>)
      modifies this
      ensures defaultSettings == Overridden(old(defaultSettings), config)
    {
      var keys := defaultSettings.Keys;
      ghost var base := defaultSettings;
      while keys != {}
        invariant keys <= base.Keys
        invariant defaultSettings.Keys == base.Keys
        invariant forall k :: k in keys ==> defaultSettings[k] == base[k]
        invariant forall k :: k in base && k !in keys ==> defaultSettings[k] == Overridden(base, config)[k]
        decreases keys
      {
        var key :| key in keys;
        if key in config {
          defaultSettings := defaultSettings[key := config[key]];
        }
        keys := keys - {key};
      }
    }

    /** `get_and_update_settings`: without settings, the defaults
        themselves; otherwise a copy of the defaults in which every key the
        caller also gives takes the caller's value. The defaults are not
        changed. */
    method GetAndUpdateSettings(settings: Option<map<string, Value>>) returns (r: map<string, Value>)
      ensures settings.None? ==> r == defaultSettings
      ensures settings.Some? ==> r == Overridden(defaultSettings, settings.value)
    {
      if settings.None? {
        return defaultSettings;
      }
      var updatedConfig := defaultSettings;
      var keys := settings.value.Keys;
      while keys != {}
        invariant keys <= settings.value.Keys
        invariant updatedConfig.Keys == defaultSettings.Keys
        invariant forall k :: k in defaultSettings ==>
          updatedConfig[k] == if k in settings.value && k !in keys then settings.value[k] else defaultSettings[k]
        decreases keys
      {
        var key :| key in keys;
        if key in updatedConfig {
          updatedConfig := updatedConfig[key := settings.value[key]];
        }
        keys := keys - {key};
      }
      return updatedConfig;
    }
  }

  /** test_transcription_settings.py: with defaults {language: en, task:
      transcribe}, updating language and task gives exactly the caller's
      settings, and updating language alone keeps the task. */
  lemma SettingsTests()
    ensures var d := map["language" := Str("en"), "task" := Str("transcribe")];
      Overridden(d, map["language" := Str("de"), "task" := Str("transcribe")]) ==
        map["language" := Str("de"), "task" := Str("transcribe")] &&
      Overridden(d, map["language" := Str("de")]) == map["language" := Str("de"), "task" := Str("transcribe")]
  {
    var d := map["language" := Str("en"), "task" := Str("transcribe")];
    assert Overridden(d, map["language" := Str("de"), "task" := Str("transcribe")]).Keys == d.Keys;
    assert Overridden(d, map["language" := Str("de")]).Keys == d.Keys;
  }
}
