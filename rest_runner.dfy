/** The REST runner (src/rest/runner.py): picking the next queued
    transcription from the status directory, and what it does with the
    transcriber's response. */
module RestRunner {
  import opened Wrappers
  import opened JsonValue
  import opened OldestQuery

  /** The status directory and the audio directory the runner works on.
      `names` is the order `os.listdir` lists the status files in; a status
      file whose content is `None` cannot be read as JSON. */
  class DataDirectory {
    var names: seq<string>
    var contents: map<string, Option<Value>>
    var audio: set<string>
    const audioFormat: string

    ghost predicate Valid()
      reads this
    {
      forall n :: n in names <==> n in contents
    }

    constructor (names: seq<string>, contents: map<string, Option<Value>>, audio: set<string>, audioFormat: string)
      requires forall n :: n in names <==> n in contents
      ensures Valid()
      ensures this.names == names && this.contents == contents && this.audio == audio
      ensures this.audioFormat == audioFormat
    {
      this.names := names;
      this.contents := contents;
      this.audio := audio;
      this.audioFormat := audioFormat;
    }

    /** `delete_status_file`: removes `<id>.json` if it exists. */
    method DeleteStatusFile(id: string)
      requires Valid()
      modifies this
      ensures Valid()
      ensures contents == RemoveKey(old(contents), id + ".json")
      ensures names == Without(old(names), id + ".json")
      ensures audio == old(audio)
    {
      var name := id + ".json";
      if name in contents {
        contents := RemoveKey(contents, name);
        names := Without(names, name);
      } else {
        WithoutAbsent(names, name);
      }
    }

    /** `delete_audio_file`: removes `<id><format>` if it exists. */
    method DeleteAudioFile(id: string)
      modifies this
      ensures audio == old(audio) - {id + audioFormat}
      ensures contents == old(contents) && names == old(names)
    {
      var name := id + audioFormat;
      if name in audio {
        audio := audio - {name};
      }
    }
  }

  function Without(names: seq<string>, k: string): (r: seq<string>)
    ensures forall n :: n in r <==> n in names && n != k
  {
    if names == [] then []
    else if names[0] == k then Without(names[1..], k)
    else [names[0]] + Without(names[1..], k)
  }

  lemma {:induction false} WithoutAbsent(names: seq<string>, k: string)
    requires k !in names
    ensures Without(names, k) == names
  {
    if names != [] {
      WithoutAbsent(names[1..], k);
    }
  }

  // ---------------------------------------------------------------------
  // Choosing the oldest queued transcription

  /** What the loop body does with one listed file. */
  datatype Outcome = Skip | Fail | Eligible(candidate: Candidate)

  /** One listed file, read as `read`: skipped when it is not `.json`, when
      status or start time is missing, when the status is not "in_query"
      or when it names another model; a failure when it cannot be read,
      is not a dict, or its start time does not parse. */
  function Classify(name: string, read: Option<Value>, modelName: string, parse: string -> Option<int>): (r: Outcome)
    ensures r.Eligible? <==>
      EndsWith(name, ".json") && read.Some? && read.value.Obj? &&
      Get(read.value.fields, "status") == Str("in_query") &&
      (Get(read.value.fields, "model") == Null || Get(read.value.fields, "model") == Str(modelName)) &&
      Get(read.value.fields, "start_time").Str? && parse(Get(read.value.fields, "start_time").s).Some?
    ensures r.Eligible? ==>
      r.candidate == Candidate(parse(Get(read.value.fields, "start_time").s).value, Get(read.value.fields, "transcription_id"))
    ensures r.Fail? ==> EndsWith(name, ".json")
    ensures !EndsWith(name, ".json") ==> r.Skip?
    ensures EndsWith(name, ".json") && (read.None? || !read.value.Obj?) ==> r.Fail?
  {
    if !EndsWith(name, ".json") then Skip
    else if read.None? || !read.value.Obj? then Fail
    else
      var fields := read.value.fields;
      var status := Get(fields, "status");
      var startTime := Get(fields, "start_time");
      var model := Get(fields, "model");
      if startTime == Null || status == Null then Skip
      else if status != Str("in_query") then Skip
      else if model != Str(modelName) && model != Null then Skip
      else if !startTime.Str? || parse(startTime.s).None? then Fail
      else Eligible(Candidate(parse(startTime.s).value, Get(fields, "transcription_id")))
  }

  function StatusNames(ids: set<string>): set<string> {
    set id | id in ids :: id + ".json"
  }

  function AudioNames(ids: set<string>, audioFormat: string): set<string> {
    set id | id in ids :: id + audioFormat
  }

  /** A file as the loop reads it once the status files of `deleted` are
      gone: a missing file cannot be read. */
  function ReadAfter(contents: map<string, Option<Value>>, deleted: set<string>, name: string): Option<Value> {
    if name in contents && name !in StatusNames(deleted) then contents[name] else None
  }

  /** The ids whose status and audio files the first i iterations delete. */
  function DeletedIds(files: seq<string>, contents: map<string, Option<Value>>, modelName: string,
                      parse: string -> Option<int>, i: nat): set<string>
    requires i <= |files|
  {
    if i == 0 then {}
    else
      var d := DeletedIds(files, contents, modelName, parse, i - 1);
      if Classify(files[i - 1], ReadAfter(contents, d, files[i - 1]), modelName, parse).Fail?
      then d + {BeforeFirstDot(files[i - 1])} else d
  }

  function CandidateOf(o: Outcome): Option<Candidate> {
    if o.Eligible? then Some(o.candidate) else None
  }

  /** The eligible records among the first i files, as the loop sees them. */
  function Candidates(files: seq<string>, contents: map<string, Option<Value>>, modelName: string,
                      parse: string -> Option<int>, i: nat): (c: seq<Option<Candidate>>)
    requires i <= |files|
    ensures |c| == i
  {
    if i == 0 then []
    else
      var d := DeletedIds(files, contents, modelName, parse, i - 1);
      Candidates(files, contents, modelName, parse, i - 1) +
        [CandidateOf(Classify(files[i - 1], ReadAfter(contents, d, files[i - 1]), modelName, parse))]
  }

  /** One more file: its candidate is appended, and the running minimum
      moves to it exactly when it is eligible and strictly earlier. */
  lemma CandidatesStep(files: seq<string>, contents: map<string, Option<Value>>, modelName: string,
                       parse: string -> Option<int>, i: nat)
    requires i < |files|
    ensures var c := Candidates(files, contents, modelName, parse, i);
      var x := CandidateOf(Classify(files[i], ReadAfter(contents, DeletedIds(files, contents, modelName, parse, i), files[i]), modelName, parse));
      Candidates(files, contents, modelName, parse, i + 1) == c + [x] &&
      Pick(c + [x]) == if x.Some? && (Pick(c).None? || x.value.time < c[Pick(c).value].value.time) then Some(i) else Pick(c)
  {
    var c := Candidates(files, contents, modelName, parse, i);
    var x := CandidateOf(Classify(files[i], ReadAfter(contents, DeletedIds(files, contents, modelName, parse, i), files[i]), modelName, parse));
    PickStep(c + [x], i);
    assert (c + [x])[..i] == c;
  }

  /** The directories once the files of the ids in `deleted` are gone:
      nothing else changed. */
  ghost predicate DirectoryAfter(initial: map<string, Option<Value>>, audio0: set<string>, audioFormat: string,
                                 deleted: set<string>, contents: map<string, Option<Value>>, audio: set<string>)
  {
    contents.Keys == initial.Keys - StatusNames(deleted) &&
    (forall n :: n in contents ==> contents[n] == initial[n]) &&
    audio == audio0 - AudioNames(deleted, audioFormat)
  }

  /** Deleting the files of one more id. */
  lemma DirectoryAfterDelete(initial: map<string, Option<Value>>, audio0: set<string>, audioFormat: string,
                             deleted: set<string>, contents: map<string, Option<Value>>, audio: set<string>,
                             id: string, contents': map<string, Option<Value>>, audio': set<string>)
    requires DirectoryAfter(initial, audio0, audioFormat, deleted, contents, audio)
    requires contents'.Keys == contents.Keys - {id + ".json"}
    requires forall n :: n in contents' ==> contents'[n] == contents[n]
    requires audio' == audio - {id + audioFormat}
    ensures DirectoryAfter(initial, audio0, audioFormat, deleted + {id}, contents', audio')
  {
    assert StatusNames(deleted + {id}) == StatusNames(deleted) + {id + ".json"};
    assert AudioNames(deleted + {id}, audioFormat) == AudioNames(deleted, audioFormat) + {id + audioFormat};
  }

  /** The directories after the loop has seen the first i listed files:
      the status and audio files of the failed ones are gone. */
  ghost predicate DirectoryScanned(dir: DataDirectory, files: seq<string>, initial: map<string, Option<Value>>,
                                   audio0: set<string>, modelName: string, parse: string -> Option<int>, i: nat)
    reads dir
  {
    i <= |files| && dir.Valid() &&
    DirectoryAfter(initial, audio0, dir.audioFormat, DeletedIds(files, initial, modelName, parse, i), dir.contents, dir.audio)
  }

  /** The running minimum after the first i candidates is the one Pick keeps. */
  ghost predicate MinimumScanned(c: seq<Option<Candidate>>, oldestStartTime: Option<int>, oldestId: Value) {
    (oldestStartTime.None? <==> Pick(c).None?) &&
    (Pick(c).Some? ==> oldestStartTime.value == c[Pick(c).value].value.time && oldestId == c[Pick(c).value].value.id) &&
    (Pick(c).None? ==> oldestId == Null)
  }

  ghost predicate Scanned(dir: DataDirectory, files: seq<string>, initial: map<string, Option<Value>>,
                          audio0: set<string>, modelName: string, parse: string -> Option<int>, i: nat,
                          oldestStartTime: Option<int>, oldestId: Value)
    reads dir
  {
    DirectoryScanned(dir, files, initial, audio0, modelName, parse, i) &&
    MinimumScanned(Candidates(files, initial, modelName, parse, i), oldestStartTime, oldestId)
  }

  /** The except branch: the status file and the audio file of `id` are
      deleted. */
  method DeleteRecordFiles(dir: DataDirectory, id: string)
    requires dir.Valid()
    modifies dir
    ensures dir.Valid()
    ensures dir.contents.Keys == old(dir.contents).Keys - {id + ".json"}
    ensures forall n :: n in dir.contents ==> dir.contents[n] == old(dir.contents)[n]
    ensures dir.audio == old(dir.audio) - {id + dir.audioFormat}
  {
    dir.DeleteStatusFile(id);
    dir.DeleteAudioFile(id);
  }

  /** One turn of the loop over the listed files. */
  method ScanFile(dir: DataDirectory, files: seq<string>, ghost initial: map<string, Option<Value>>,
                  ghost audio0: set<string>, modelName: string, parse: string -> Option<int>, i: nat,
                  oldestStartTime: Option<int>, oldestId: Value)
    returns (nextStartTime: Option<int>, nextId: Value)
    requires i < |files|
    requires Scanned(dir, files, initial, audio0, modelName, parse, i, oldestStartTime, oldestId)
    modifies dir
    ensures Scanned(dir, files, initial, audio0, modelName, parse, i + 1, nextStartTime, nextId)
  {
    ghost var deleted := DeletedIds(files, initial, modelName, parse, i);
    ghost var c := Candidates(files, initial, modelName, parse, i);
    nextStartTime, nextId := oldestStartTime, oldestId;
    var filename := files[i];
    var data: Option<Value> := if filename in dir.contents then dir.contents[filename] else None;
    assert data == ReadAfter(initial, deleted, filename);
    var outcome := Classify(filename, data, modelName, parse);
    if outcome.Fail? {
      var transcriptionId := BeforeFirstDot(filename);
      ghost var contents0, audio1 := dir.contents, dir.audio;
      DeleteRecordFiles(dir, transcriptionId);
      DirectoryAfterDelete(initial, audio0, dir.audioFormat, deleted, contents0, audio1,
        transcriptionId, dir.contents, dir.audio);
      assert DeletedIds(files, initial, modelName, parse, i + 1) == deleted + {transcriptionId};
    } else {
      assert DeletedIds(files, initial, modelName, parse, i + 1) == deleted;
    }
    if outcome.Eligible? {
      if oldestStartTime.None? || outcome.candidate.time < oldestStartTime.value {
        nextStartTime := Some(outcome.candidate.time);
        nextId := outcome.candidate.id;
      }
    }
    assert MinimumScanned(Candidates(files, initial, modelName, parse, i + 1), nextStartTime, nextId) by {
      CandidatesStep(files, initial, modelName, parse, i);
    }
  }

  /** `get_oldest_status_file_in_query`: the id of the first queued record
      with the earliest start time (see OldestQuery.AnswerIsEarliest), or
      "None"; every `.json` file that fails to read or parse has its status
      and audio files deleted. The random sleep is left out. */
  method GetOldestStatusFileInQuery(dir: DataDirectory, modelName: string, parse: string -> Option<int>)
    returns (id: Value)
    requires dir.Valid()
    modifies dir
    ensures dir.Valid()
    ensures id == Answer(Candidates(old(dir.names), old(dir.contents), modelName, parse, |old(dir.names)|))
    ensures var gone := DeletedIds(old(dir.names), old(dir.contents), modelName, parse, |old(dir.names)|);
      dir.contents.Keys == old(dir.contents).Keys - StatusNames(gone) &&
      (forall n :: n in dir.contents ==> dir.contents[n] == old(dir.contents)[n]) &&
      dir.audio == old(dir.audio) - AudioNames(gone, dir.audioFormat)
  {
    if |dir.names| == 0 {
      return Str("None");
    }
    var files := dir.names;
    ghost var initial := dir.contents;
    ghost var audio0 := dir.audio;
    var oldestStartTime: Option<int> := None;
    var oldestId: Value := Null;
    var i := 0;
    while i < |files|
      invariant i <= |files|
      invariant Scanned(dir, files, initial, audio0, modelName, parse, i, oldestStartTime, oldestId)
    {
      oldestStartTime, oldestId := ScanFile(dir, files, initial, audio0, modelName, parse, i, oldestStartTime, oldestId);
      i := i + 1;
    }
    if Truthy(oldestId) {
      return oldestId;
    }
    return Str("None");
  }

  /** Nothing is deleted when every listed file reads as a dict with a
      parsable start time wherever one is needed. */
  lemma {:induction false} NothingDeletedWithoutFailures(files: seq<string>, contents: map<string, Option<Value>>,
                                                         modelName: string, parse: string -> Option<int>, i: nat)
    requires i <= |files|
    requires forall k :: 0 <= k < |files| ==> !Classify(files[k], ReadAfter(contents, {}, files[k]), modelName, parse).Fail?
    ensures DeletedIds(files, contents, modelName, parse, i) == {}
  {
    if i > 0 {
      NothingDeletedWithoutFailures(files, contents, modelName, parse, i - 1);
    }
  }

  /** Records in the listing order of test_rest_runner.py: a newer and an
      older queued record without a model give the older one's id. */
  lemma OldestFirst(parse: string -> Option<int>)
    requires parse("2021-05-01T00:00:00Z").Some? && parse("2021-04-01T00:00:00Z").Some?
    requires parse("2021-04-01T00:00:00Z").value < parse("2021-05-01T00:00:00Z").value
    ensures Answer(Candidates(TestFiles(), TestContents(), "tiny", parse, 2)) == Str("writeOld")
  {
    TestCandidates(parse);
    var c := Candidates(TestFiles(), TestContents(), "tiny", parse, 2);
    assert Pick(c[..1]) == Some(0);
  }

  lemma TestCandidates(parse: string -> Option<int>)
    requires parse("2021-05-01T00:00:00Z").Some? && parse("2021-04-01T00:00:00Z").Some?
    ensures Candidates(TestFiles(), TestContents(), "tiny", parse, 2) ==
      [Some(Candidate(parse("2021-05-01T00:00:00Z").value, Str("writeNew"))),
       Some(Candidate(parse("2021-04-01T00:00:00Z").value, Str("writeOld")))]
  {
    var files, m := TestFiles(), TestContents();
    TestFirstCandidate(parse);
    assert ReadAfter(m, {}, files[1]) == Some(TestRecord("writeOld", "2021-04-01T00:00:00Z"));
    TestRecordEligible("writeOld", "2021-04-01T00:00:00Z", parse);
  }

  lemma TestFirstCandidate(parse: string -> Option<int>)
    requires parse("2021-05-01T00:00:00Z").Some?
    ensures Candidates(TestFiles(), TestContents(), "tiny", parse, 1) ==
      [Some(Candidate(parse("2021-05-01T00:00:00Z").value, Str("writeNew")))]
    ensures DeletedIds(TestFiles(), TestContents(), "tiny", parse, 1) == {}
  {
    var files, m := TestFiles(), TestContents();
    assert StatusNames({}) == {};
    assert ReadAfter(m, {}, files[0]) == Some(TestRecord("writeNew", "2021-05-01T00:00:00Z"));
    TestRecordEligible("writeNew", "2021-05-01T00:00:00Z", parse);
  }

  function TestFiles(): seq<string> {
    ["writeNew.json", "writeOld.json"]
  }

  /** A queued record of the tests, without a model, is eligible. */
  lemma TestRecordEligible(id: string, startTime: string, parse: string -> Option<int>)
    requires parse(startTime).Some?
    ensures Classify(id + ".json", Some(TestRecord(id, startTime)), "tiny", parse) ==
      Eligible(Candidate(parse(startTime).value, Str(id)))
  {
    assert (id + ".json")[|id|..] == ".json";
  }

  function TestRecord(id: string, startTime: string): Value {
    Obj(map["transcription_id" := Str(id), "status" := Str("in_query"), "start_time" := Str(startTime)])
  }

  function TestContents(): map<string, Option<Value>> {
    map["writeNew.json" := Some(TestRecord("writeNew", "2021-05-01T00:00:00Z")),
        "writeOld.json" := Some(TestRecord("writeOld", "2021-04-01T00:00:00Z"))]
  }

  // ---------------------------------------------------------------------
  // Handling one transcription

  /** What the transcriber returns: `{"success": ..., "data": ...}`. */
  datatype Response = Response(success: bool, data: Value)

  /** The data-handler calls the runner makes, in order. */
  datatype Action =
    | DeleteAudio(id: string)
    | UpdateStatus(status: string, id: string, errorMessage: Option<Value>)
    | MergeTranscript(id: string, data: Value)

  /** The calls `transcribe` makes, and whether it raised before finishing. */
  datatype Handled = Handled(actions: seq<Action>, raised: bool)

  /** The task names `transcribe` knows. */
  predicate KnownTask(task: Value) {
    task == Str("transcribe") || task == Str("align")
  }

  /** `transcribe` gets as far as calling the transcriber: the record has
      a known task and, for "align", the "text" and "language" the call
      reads from it first. */
  predicate CallsTranscriber(record: map<string, Value>) {
    "task" in record && KnownTask(record["task"]) &&
    (record["task"] == Str("align") ==> "text" in record && "language" in record)
  }

  /** `transcribe` on the status record `record`. `call` is what the
      transcriber call gives: the response it returns, or None when it
      raises (a failed model load is outside the transcriber's own try).
      A missing "task", or a missing "text" or "language" for "align",
      raises before anything is done, and so does a raising call; the
      audio file is deleted only after that. Then an unsuccessful response
      or one whose segments are None sets status "error" with the data as
      message, and anything else is merged. An unknown task leaves the
      response None, and subscripting it raises after the delete. */
  function Transcribe(id: string, record: map<string, Value>, call: Option<Response>): (r: Handled)
    ensures r.actions != [] ==> r.actions[0] == DeleteAudio(id)
    ensures DeleteAudio(id) in r.actions <==>
      "task" in record && (!KnownTask(record["task"]) || (CallsTranscriber(record) && call.Some?))
    ensures "task" in record && !KnownTask(record["task"]) ==> r == Handled([DeleteAudio(id)], true)
    ensures !CallsTranscriber(record) ==> r.raised
    ensures CallsTranscriber(record) && call.None? ==> r == Handled([], true)
    ensures CallsTranscriber(record) && call.Some? && !call.value.success ==>
      r == Handled([DeleteAudio(id), UpdateStatus("error", id, Some(call.value.data))], false)
    ensures !r.raised ==> |r.actions| == 2
    ensures |r.actions| == 2 && r.actions[1].MergeTranscript? ==>
      call.Some? && call.value.success && call.value.data.Obj? && "segments" in call.value.data.fields &&
      call.value.data.fields["segments"] != Null && r.actions[1] == MergeTranscript(id, call.value.data)
  {
    if "task" !in record then Handled([], true)
    else if !KnownTask(record["task"]) then Handled([DeleteAudio(id)], true)
    else if !CallsTranscriber(record) || call.None? then Handled([], true)
    else
      var response := call.value;
      if !response.success then Handled([DeleteAudio(id), UpdateStatus("error", id, Some(response.data))], false)
      else if !response.data.Obj? || "segments" !in response.data.fields then Handled([DeleteAudio(id)], true)
      else if response.data.fields["segments"] == Null then
        Handled([DeleteAudio(id), UpdateStatus("error", id, Some(response.data))], false)
      else Handled([DeleteAudio(id), MergeTranscript(id, response.data)], false)
  }

  /** One turn of `run` for a found id: status "in_progress", then
      `transcribe`; an exception sets status "error" with its text. */
  function ProcessFound(id: string, record: map<string, Value>, call: Option<Response>, exceptionText: string): (r: seq<Action>)
    ensures |r| >= 2 && r[0] == UpdateStatus("in_progress", id, None)
    ensures r[|r| - 1].UpdateStatus? || r[|r| - 1].MergeTranscript?
    ensures Transcribe(id, record, call).raised ==> r[|r| - 1] == UpdateStatus("error", id, Some(Str(exceptionText)))
  {
    var h := Transcribe(id, record, call);
    [UpdateStatus("in_progress", id, None)] + h.actions +
      (if h.raised then [UpdateStatus("error", id, Some(Str(exceptionText)))] else [])
  }

  /** Every found transcription ends with exactly one of: status "error",
      or its transcript merged. Its audio file is deleted exactly when the
      transcriber returned or the task is unknown; when `transcribe` raises
      before the delete, the record goes from "in_progress" straight to
      "error" with the exception text and the audio file stays. */
  lemma EveryTranscriptionSettles(id: string, record: map<string, Value>, call: Option<Response>, exceptionText: string)
    ensures var r := ProcessFound(id, record, call, exceptionText);
      r[|r| - 1].MergeTranscript? <==>
        CallsTranscriber(record) && call.Some? && call.value.success && call.value.data.Obj? &&
        "segments" in call.value.data.fields && call.value.data.fields["segments"] != Null
    ensures var r := ProcessFound(id, record, call, exceptionText);
      !r[|r| - 1].MergeTranscript? ==> r[|r| - 1].status == "error"
    ensures var r := ProcessFound(id, record, call, exceptionText);
      r[1] == DeleteAudio(id) <==>
        "task" in record && (!KnownTask(record["task"]) || (CallsTranscriber(record) && call.Some?))
    ensures var r := ProcessFound(id, record, call, exceptionText);
      r[1] != DeleteAudio(id) ==>
        r == [UpdateStatus("in_progress", id, None), UpdateStatus("error", id, Some(Str(exceptionText)))]
  {
  }
}
