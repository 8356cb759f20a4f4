/** The whisper.cpp runner's data handler
    (whispercpp_runner/src/data_handler.py): status records kept as JSON
    files in a status directory, transcripts in a transcript directory.
    Reading a file that is missing or is not JSON raises, as `read_json`
    does; exceptions are modelled as a `raised` result. */
module CppDataHandler {
  import opened Wrappers
  import opened JsonValue
  import opened OldestQuery

  /** The two directories. `names` is the order `os.listdir` lists the
      status files in; a file whose content is `None` is not valid JSON. */
  class DataHandler {
    var names: seq<string>
    var status: map<string, Option<Value>>
    var transcripts: map<string, Option<Value>>
    const audioFormat: string
    const maxDoneFiles: nat

    ghost predicate Valid()
      reads this
    {
      forall n :: n in names <==> n in status
    }

    constructor (names: seq<string>, status: map<string, Option<Value>>, transcripts: map<string, Option<Value>>,
                 audioFormat: string, maxDoneFiles: nat)
      requires forall n :: n in names <==> n in status
      ensures Valid()
      ensures this.names == names && this.status == status && this.transcripts == transcripts
      ensures this.audioFormat == audioFormat && this.maxDoneFiles == maxDoneFiles
    {
      this.names := names;
      this.status := status;
      this.transcripts := transcripts;
      this.audioFormat := audioFormat;
      this.maxDoneFiles := maxDoneFiles;
    }

    // -------------------------------------------------------------------
    // update_status_file

    /** `update_status_file`: `now` is the UTC time formatted as
        "%Y-%m-%dT%H:%M:%SZ". A missing or unreadable record raises and an
        empty one is left alone; neither is written. */
    method UpdateStatusFile(newStatus: string, id: string, errorMessage: Option<string>, now: string)
      returns (raised: bool)
      requires Valid()
      modifies this
      ensures Valid() && names == old(names) && transcripts == old(transcripts)
      ensures var name := id + ".json";
        raised <==> name !in old(status) || old(status)[name].None? ||
                    (Truthy(old(status)[name].value) && !old(status)[name].value.Obj?)
      ensures var name := id + ".json";
        if !raised && Truthy(old(status)[name].value)
        then status == old(status)[name := Some(Obj(UpdatedRecord(old(status)[name].value.fields, newStatus, errorMessage, now)))]
        else status == old(status)
    {
      var name := id + ".json";
      if name !in status || status[name].None? {
        return true;
      }
      var data := status[name].value;
      if !Truthy(data) {
        return false;
      }
      if !data.Obj? {
        return true;
      }
      var fields := data.fields;
      fields := fields["status" := Str(newStatus)];
      if newStatus == "done" {
        fields := fields["end_time" := Str(now)];
      }
      if errorMessage.Some? {
        fields := fields["error_message" := Str(errorMessage.value)];
      }
      status := status[name := Some(Obj(fields))];
      raised := false;
    }

    // -------------------------------------------------------------------
    // merge_transcript_to_status

    /** `merge_transcript_to_status`: with a truthy transcript and a truthy
        status record the transcript is embedded, its file deleted and the
        status set to "done"; otherwise the status is set to "error" with
        "Transcript file not found." (which leaves an empty record alone). */
    method MergeTranscriptToStatus(id: string, now: string) returns (raised: bool)
      requires Valid()
      modifies this
      ensures Valid() && names == old(names)
      ensures var t := id + audioFormat + ".json"; var s := id + ".json";
        MergeReadable(old(transcripts), old(status), t, s) ==>
          if Truthy(old(transcripts)[t].value) && Truthy(old(status)[s].value) then
            (raised <==> !old(status)[s].value.Obj?) &&
            (!raised ==>
              transcripts.Keys == old(transcripts).Keys - {t} &&
              (forall n :: n in transcripts ==> transcripts[n] == old(transcripts)[n]) &&
              status == old(status)[s := Some(Obj(UpdatedRecord(
                old(status)[s].value.fields["transcript" := old(transcripts)[t].value], "done", None, now)))])
          else
            transcripts == old(transcripts) &&
            (raised <==> !old(status)[s].value.Obj? && Truthy(old(status)[s].value)) &&
            (!raised && Truthy(old(status)[s].value) ==>
              status == old(status)[s := Some(Obj(UpdatedRecord(
                old(status)[s].value.fields, "error", Some("Transcript file not found."), now)))]) &&
            (!Truthy(old(status)[s].value) ==> status == old(status))
      ensures var t := id + audioFormat + ".json"; var s := id + ".json";
        !MergeReadable(old(transcripts), old(status), t, s) ==>
          raised && status == old(status) && transcripts == old(transcripts)
    {
      var transcriptName := id + audioFormat + ".json";
      var statusName := id + ".json";
      if transcriptName !in transcripts || transcripts[transcriptName].None? {
        return true;
      }
      var transcriptData := transcripts[transcriptName].value;
      if statusName !in status || status[statusName].None? {
        return true;
      }
      var statusData := status[statusName].value;
      if Truthy(transcriptData) && Truthy(statusData) {
        if !statusData.Obj? {
          return true;
        }
        var merged := statusData.fields["transcript" := transcriptData];
        status := status[statusName := Some(Obj(merged))];
        transcripts := RemoveKey(transcripts, transcriptName);
        raised := UpdateStatusFile("done", id, None, now);
      } else {
        raised := UpdateStatusFile("error", id, Some("Transcript file not found."), now);
      }
    }

    // -------------------------------------------------------------------
    // get_oldest_status_file_in_query

    /** `get_oldest_status_file_in_query`: the id of the first in-query
        record with the earliest start time, or "None"
        (OldestQuery.AnswerIsEarliest); any record that cannot be read, is
        not a dict or has an unparsable start time raises. */
    method GetOldestStatusFileInQuery(parse: string -> Option<int>) returns (raised: bool, id: Value)
      requires Valid()
      ensures raised <==> exists k :: 0 <= k < |names| && QueryOutcome(names[k], status[names[k]], parse).Fail?
      ensures !raised ==> id == Answer(QueryCandidates(names, status, parse))
    {
      var oldestStartTime: Option<int> := None;
      var oldestId: Value := Null;
      ghost var c := QueryCandidates(names, status, parse);
      ghost var failing := QueryFailures(names, status, parse);
      var i := 0;
      while i < |names|
        invariant i <= |names|
        invariant forall k :: 0 <= k < i ==> !failing[k]
        invariant oldestStartTime.None? <==> Pick(c[..i]).None?
        invariant Pick(c[..i]).Some? ==>
          oldestStartTime.value == c[Pick(c[..i]).value].value.time && oldestId == c[Pick(c[..i]).value].value.id
        invariant Pick(c[..i]).None? ==> oldestId == Null
      {
        var outcome := QueryOutcome(names[i], status[names[i]], parse);
        PickStep(c, i);
        if outcome.Fail? {
          return true, Null;
        }
        if outcome.Eligible? {
          if oldestStartTime.None? || outcome.candidate.time < oldestStartTime.value {
            oldestStartTime := Some(outcome.candidate.time);
            oldestId := outcome.candidate.id;
          }
        }
        i := i + 1;
      }
      assert c[..i] == c;
      assert forall k :: 0 <= k < |names| ==> !QueryOutcome(names[k], status[names[k]], parse).Fail? by {
        forall k | 0 <= k < |names| ensures !QueryOutcome(names[k], status[names[k]], parse).Fail? {
          assert !failing[k];
        }
      }
      raised := false;
      id := if Truthy(oldestId) then oldestId else Str("None");
    }

    // -------------------------------------------------------------------
    // delete_oldest_done_status_files

    /** `delete_oldest_done_status_files`: when there are more "done"
        records than `maxDoneFiles`, the oldest of them are deleted so that
        `maxDoneFiles` remain (OldestDoneDeleted); otherwise nothing
        changes. Unreadable records and unparsable start times raise. */
    method DeleteOldestDoneStatusFiles(parse: string -> Option<int>) returns (raised: bool)
      requires Valid()
      modifies this
      ensures Valid() && transcripts == old(transcripts)
      ensures var done := DoneFiles(old(names), old(status));
        raised <==> done.None? || (|done.value| > maxDoneFiles && DoneTimes(done.value, parse).None?)
      ensures var done := DoneFiles(old(names), old(status));
        raised || |done.value| <= maxDoneFiles ==> status == old(status) && names == old(names)
      ensures var done := DoneFiles(old(names), old(status));
        !raised && |done.value| > maxDoneFiles ==>
          Removed(old(status), old(names), status, names, RetentionDeletes(done.value, maxDoneFiles, parse))
    {
      ghost var done0 := DoneFiles(names, status);
      var done := CollectDoneFiles();
      assert done == done0;
      if done.None? {
        return true;
      }
      var doneFiles := done.value;
      if |doneFiles| <= maxDoneFiles {
        return false;
      }
      // The sort key is evaluated for every entry before anything is deleted.
      var keyed := SortKeys(doneFiles, parse);
      if keyed.None? {
        return true;
      }
      RetentionDeletesOf(doneFiles, maxDoneFiles, parse, keyed.value);
      DeleteOldest(keyed.value, |doneFiles| - maxDoneFiles);
      raised := false;
    }

    /** The sort and the loop that deletes the oldest `count` records. */
    method DeleteOldest(keyed: seq<(string, int)>, count: nat)
      requires Valid() && count <= |keyed|
      modifies this
      ensures Valid() && transcripts == old(transcripts)
      ensures Removed(old(status), old(names), status, names, NamesOf(OldestFirst(keyed, count)))
    {
      var sorted := SortByTime(keyed);
      SortByTimeLength(keyed);
      DeleteFirst(sorted, count);
    }

    /** The loop that collects the "done" records. */
    method CollectDoneFiles() returns (done: Option<seq<(string, Value)>>)
      requires Valid()
      ensures done == DoneFiles(names, status)
    {
      var doneFiles: seq<(string, Value)> := [];
      var i := 0;
      while i < |names|
        invariant i <= |names|
        invariant DoneFiles(names[..i], status) == Some(doneFiles)
      {
        assert names[..i + 1][..i] == names[..i];
        var name := names[i];
        if EndsWith(name, ".json") {
          if status[name].None? || !status[name].value.Obj? {
            DoneFilesFailure(names, status, i);
            return None;
          }
          var currentStatus := Get(status[name].value.fields, "status");
          if currentStatus == Str("done") {
            doneFiles := doneFiles + [(name, Get(status[name].value.fields, "start_time"))];
          }
        }
        i := i + 1;
      }
      assert names[..i] == names;
      return Some(doneFiles);
    }

    /** The loop that removes the first `count` sorted records. */
    method DeleteFirst(sorted: seq<(string, int)>, count: nat)
      requires Valid() && count <= |sorted|
      modifies this
      ensures Valid() && transcripts == old(transcripts)
      ensures Removed(old(status), old(names), status, names, NamesOf(sorted[..count]))
    {
      ghost var status0 := status;
      ghost var names0 := names;
      WithoutNothing(names0);
      assert NamesOf(sorted[..0]) == {};
      var k := 0;
      while k < count
        invariant k <= count && Valid() && transcripts == old(transcripts)
        invariant status.Keys == status0.Keys - NamesOf(sorted[..k])
        invariant forall n :: n in status ==> status[n] == status0[n]
        invariant names == Filter(names0, NamesOf(sorted[..k]))
      {
        var fileToDelete := sorted[k].0;
        assert NamesOf(sorted[..k + 1]) == NamesOf(sorted[..k]) + {fileToDelete} by {
          assert sorted[..k + 1] == sorted[..k] + [sorted[k]];
        }
        FilterMore(names0, NamesOf(sorted[..k]), fileToDelete);
        status := RemoveKey(status, fileToDelete);
        names := Filter(names, {fileToDelete});
        k := k + 1;
      }
    }
  }

  /** The loop that parses every start time for the sort key. */
  method SortKeys(doneFiles: seq<(string, Value)>, parse: string -> Option<int>) returns (keyed: Option<seq<(string, int)>>)
    ensures keyed == DoneTimes(doneFiles, parse)
  {
    var keys: seq<(string, int)> := [];
    var j := 0;
    while j < |doneFiles|
      invariant j <= |doneFiles|
      invariant DoneTimes(doneFiles[..j], parse) == Some(keys)
    {
      assert doneFiles[..j + 1][..j] == doneFiles[..j];
      var startTime := doneFiles[j].1;
      if !startTime.Str? || parse(ReplaceZ(startTime.s)).None? {
        DoneTimesFailure(doneFiles, parse, j);
        return None;
      }
      keys := keys + [(doneFiles[j].0, parse(ReplaceZ(startTime.s)).value)];
      j := j + 1;
    }
    assert doneFiles[..j] == doneFiles;
    return Some(keys);
  }

  // ---------------------------------------------------------------------
  // Record updates

  /** The record `update_status_file` writes back. */
  function UpdatedRecord(fields: map<string, Value>, newStatus: string, errorMessage: Option<string>, now: string): map<string, Value> {
    var withStatus := fields["status" := Str(newStatus)];
    var withEnd := if newStatus == "done" then withStatus["end_time" := Str(now)] else withStatus;
    if errorMessage.Some? then withEnd["error_message" := Str(errorMessage.value)] else withEnd
  }

  /** The status is set, "end_time" is set only for "done", "error_message"
      only when one is given, and every other entry is kept. */
  lemma UpdatedRecordFields(fields: map<string, Value>, newStatus: string, errorMessage: Option<string>, now: string)
    ensures var r := UpdatedRecord(fields, newStatus, errorMessage, now);
      r["status"] == Str(newStatus) &&
      (newStatus == "done" ==> r["end_time"] == Str(now)) &&
      (newStatus != "done" ==> ("end_time" in r <==> "end_time" in fields) && ("end_time" in fields ==> r["end_time"] == fields["end_time"])) &&
      (errorMessage.Some? ==> r["error_message"] == Str(errorMessage.value)) &&
      (errorMessage.None? ==> ("error_message" in r <==> "error_message" in fields) && ("error_message" in fields ==> r["error_message"] == fields["error_message"])) &&
      r.Keys == fields.Keys + {"status"} + (if newStatus == "done" then {"end_time"} else {}) +
        (if errorMessage.Some? then {"error_message"} else {}) &&
      (forall k :: k in fields && k != "status" && k != "end_time" && k != "error_message" ==> r[k] == fields[k])
  {
  }

  /** Both files of a merge can be read as JSON. */
  predicate MergeReadable(transcripts: map<string, Option<Value>>, status: map<string, Option<Value>>, t: string, s: string) {
    t in transcripts && transcripts[t].Some? && s in status && status[s].Some?
  }

  // ---------------------------------------------------------------------
  // Start times

  /** `s.replace("Z", "+00:00")`. */
  function ReplaceZ(s: string): (r: string)
    ensures 'Z' !in r
  {
    if s == [] then ""
    else (if s[0] == 'Z' then "+00:00" else [s[0]]) + ReplaceZ(s[1..])
  }

  /** Replacing is done piece by piece. */
  lemma {:induction false} ReplaceZAppend(a: string, b: string)
    ensures ReplaceZ(a + b) == ReplaceZ(a) + ReplaceZ(b)
  {
    if a != [] {
      assert (a + b)[1..] == a[1..] + b;
      ReplaceZAppend(a[1..], b);
      ConcatAssoc3(if a[0] == 'Z' then "+00:00" else [a[0]], ReplaceZ(a[1..]), ReplaceZ(b));
    } else {
      assert a + b == b;
    }
  }

  lemma ConcatAssoc3(a: string, b: string, c: string)
    ensures a + (b + c) == (a + b) + c
  {
  }

  /** A time without "Z" is left as it is; a trailing "Z" becomes the
      "+00:00" offset. */
  lemma {:induction false} ReplaceZTrailing(s: string)
    requires 'Z' !in s
    ensures ReplaceZ(s) == s
    ensures ReplaceZ(s + "Z") == s + "+00:00"
  {
    if s != [] {
      ReplaceZTrailing(s[1..]);
    }
    ReplaceZAppend(s, "Z");
    assert ReplaceZ("Z") == "+00:00" by {
      assert "Z"[1..] == "";
    }
  }

  // ---------------------------------------------------------------------
  // Choosing the oldest queued transcription

  datatype Outcome = Skip | Fail | Eligible(candidate: Candidate)

  /** One listed file: `.json` records that are "in_query" with a truthy
      start time are eligible; an unreadable record, one that is not a
      dict, or a start time that is not a string or does not parse raises. */
  function QueryOutcome(name: string, read: Option<Value>, parse: string -> Option<int>): (r: Outcome)
    ensures r.Eligible? <==>
      EndsWith(name, ".json") && read.Some? && read.value.Obj? &&
      Get(read.value.fields, "status") == Str("in_query") &&
      Get(read.value.fields, "start_time").Str? && Get(read.value.fields, "start_time").s != "" &&
      parse(ReplaceZ(Get(read.value.fields, "start_time").s)).Some?
    ensures r.Eligible? ==> r.candidate == Candidate(parse(ReplaceZ(Get(read.value.fields, "start_time").s)).value, Get(read.value.fields, "transcription_id"))
    ensures !EndsWith(name, ".json") ==> r.Skip?
  {
    if !EndsWith(name, ".json") then Skip
    else if read.None? || !read.value.Obj? then Fail
    else
      var fields := read.value.fields;
      if Get(fields, "status") != Str("in_query") then Skip
      else
        var startTime := Get(fields, "start_time");
        if !Truthy(startTime) then Skip
        else if !startTime.Str? || parse(ReplaceZ(startTime.s)).None? then Fail
        else Eligible(Candidate(parse(ReplaceZ(startTime.s)).value, Get(fields, "transcription_id")))
  }

  function QueryCandidates(names: seq<string>, status: map<string, Option<Value>>, parse: string -> Option<int>): (c: seq<Option<Candidate>>)
    requires forall n :: n in names ==> n in status
    ensures |c| == |names|
    ensures forall k :: 0 <= k < |names| ==>
      c[k] == (var o := QueryOutcome(names[k], status[names[k]], parse); if o.Eligible? then Some(o.candidate) else None)
  {
    seq(|names|, k requires 0 <= k < |names| =>
      var o := QueryOutcome(names[k], status[names[k]], parse); if o.Eligible? then Some(o.candidate) else None)
  }

  /** Which listed files make the query raise. */
  function QueryFailures(names: seq<string>, status: map<string, Option<Value>>, parse: string -> Option<int>): (f: seq<bool>)
    requires forall n :: n in names ==> n in status
    ensures |f| == |names|
    ensures forall k :: 0 <= k < |names| ==> f[k] == QueryOutcome(names[k], status[names[k]], parse).Fail?
  {
    seq(|names|, k requires 0 <= k < |names| => QueryOutcome(names[k], status[names[k]], parse).Fail?)
  }

  // ---------------------------------------------------------------------
  // Retention of "done" records

  /** The (file name, start_time) of the "done" records among the `.json`
      names, in listing order, or None when one of those records cannot be
      read or is not a dict. Other names are never read. */
  function DoneFiles(names: seq<string>, status: map<string, Option<Value>>): Option<seq<(string, Value)>>
    requires forall n :: n in names ==> n in status
  {
    if names == [] then Some([])
    else
      var n := |names| - 1;
      var before := DoneFiles(names[..n], status);
      if before.None? then None
      else if !EndsWith(names[n], ".json") then before
      else
      var read := status[names[n]];
      if read.None? || !read.value.Obj? then None
      else if Get(read.value.fields, "status") == Str("done")
      then Some(before.value + [(names[n], Get(read.value.fields, "start_time"))])
      else before
  }

  lemma {:induction false} DoneFilesFailure(names: seq<string>, status: map<string, Option<Value>>, i: nat)
    requires forall n :: n in names ==> n in status
    requires i < |names| && EndsWith(names[i], ".json") && (status[names[i]].None? || !status[names[i]].value.Obj?)
    ensures DoneFiles(names, status).None?
    decreases |names|
  {
    var n := |names| - 1;
    if i < n {
      assert names[..n][i] == names[i];
      DoneFilesFailure(names[..n], status, i);
    }
  }

  /** The sort keys: every start time parsed after the "Z" rewrite, or
      None when one is not a string or does not parse. */
  function DoneTimes(done: seq<(string, Value)>, parse: string -> Option<int>): (r: Option<seq<(string, int)>>)
    ensures r.Some? ==> |r.value| == |done|
  {
    if done == [] then Some([])
    else
      var n := |done| - 1;
      var before := DoneTimes(done[..n], parse);
      var t := done[n].1;
      if before.None? || !t.Str? || parse(ReplaceZ(t.s)).None? then None
      else Some(before.value + [(done[n].0, parse(ReplaceZ(t.s)).value)])
  }

  lemma {:induction false} DoneTimesFailure(done: seq<(string, Value)>, parse: string -> Option<int>, j: nat)
    requires j < |done| && (!done[j].1.Str? || parse(ReplaceZ(done[j].1.s)).None?)
    ensures DoneTimes(done, parse).None?
    decreases |done|
  {
    var n := |done| - 1;
    if j < n {
      assert done[..n][j] == done[j];
      DoneTimesFailure(done[..n], parse, j);
    }
  }

  /** Stable insertion: `x` goes after every entry that is not later. */
  function Insert(x: (string, int), s: seq<(string, int)>): (r: seq<(string, int)>)
    ensures |r| == |s| + 1
    ensures multiset(r) == multiset(s) + multiset{x}
  {
    if s == [] then [x]
    else if x.1 < s[0].1 then [x] + s
    else
      assert s == [s[0]] + s[1..];
      [s[0]] + Insert(x, s[1..])
  }

  /** `list.sort` by start time: a stable insertion sort. */
  function SortByTime(s: seq<(string, int)>): (r: seq<(string, int)>)
    ensures multiset(r) == multiset(s)
  {
    if s == [] then []
    else
      var n := |s| - 1;
      assert s == s[..n] + [s[n]];
      Insert(s[n], SortByTime(s[..n]))
  }

  /** The status files `gone` are deleted and nothing else changed. */
  ghost predicate Removed(status0: map<string, Option<Value>>, names0: seq<string>,
                          status: map<string, Option<Value>>, names: seq<string>, gone: set<string>)
  {
    status.Keys == status0.Keys - gone &&
    (forall n :: n in status ==> status[n] == status0[n]) &&
    names == Filter(names0, gone)
  }

  /** The file names retention deletes: the first `|done| - maxDone` once
      sorted by start time. */
  function RetentionDeletes(done: seq<(string, Value)>, maxDone: nat, parse: string -> Option<int>): set<string>
    requires DoneTimes(done, parse).Some? && |done| > maxDone
  {
    NamesOf(OldestFirst(DoneTimes(done, parse).value, |done| - maxDone))
  }

  /** Retention only ever deletes records whose status is "done". */
  lemma RetentionDeletesOnlyDone(names: seq<string>, status: map<string, Option<Value>>, maxDone: nat,
                                 parse: string -> Option<int>)
    requires forall n :: n in names ==> n in status
    requires DoneFiles(names, status).Some?
    requires DoneTimes(DoneFiles(names, status).value, parse).Some?
    requires |DoneFiles(names, status).value| > maxDone
    ensures forall n :: n in RetentionDeletes(DoneFiles(names, status).value, maxDone, parse) ==>
      n in names && DoneRecord(status, n)
  {
    DoneFilesAreDone(names, status);
    RetentionDeletesFromDone(DoneFiles(names, status).value, maxDone, parse);
  }

  /** Every deleted name is the name of one of the "done" records. */
  lemma RetentionDeletesFromDone(done: seq<(string, Value)>, maxDone: nat, parse: string -> Option<int>)
    requires DoneTimes(done, parse).Some? && |done| > maxDone
    ensures forall n :: n in RetentionDeletes(done, maxDone, parse) ==> exists k :: 0 <= k < |done| && done[k].0 == n
  {
    var keyed := DoneTimes(done, parse).value;
    RetentionDeletesOf(done, maxDone, parse, keyed);
    DoneTimesNames(done, parse);
    OldestNamesFromKeyed(keyed, |done| - maxDone);
  }

  /** `n` is a `.json` name whose record reads as a dict with status "done". */
  predicate DoneRecord(status: map<string, Option<Value>>, n: string) {
    EndsWith(n, ".json") && n in status && status[n].Some? && status[n].value.Obj? && Get(status[n].value.fields, "status") == Str("done")
  }

  /** The deleted names are names of the sort's input. */
  lemma OldestNamesFromKeyed(keyed: seq<(string, int)>, count: nat)
    ensures forall n :: n in NamesOf(OldestFirst(keyed, count)) ==> exists j :: 0 <= j < |keyed| && keyed[j].0 == n
  {
    var sorted := SortByTime(keyed);
    var oldest := OldestFirst(keyed, count);
    forall n | n in NamesOf(oldest)
      ensures exists j :: 0 <= j < |keyed| && keyed[j].0 == n
    {
      var k :| 0 <= k < |oldest| && oldest[k].0 == n;
      assert oldest[k] in multiset(sorted);
      assert oldest[k] in keyed;
    }
  }

  /** The collection reads only the `.json` names: two directories that
      agree on those give the same result, whatever else they hold. */
  lemma {:induction false} DoneFilesReadsOnlyJson(names: seq<string>, status: map<string, Option<Value>>,
                                                  status': map<string, Option<Value>>)
    requires forall n :: n in names ==> n in status && n in status'
    requires forall n :: n in names && EndsWith(n, ".json") ==> status[n] == status'[n]
    ensures DoneFiles(names, status) == DoneFiles(names, status')
  {
    if names != [] {
      var n := |names| - 1;
      assert forall m :: m in names[..n] ==> m in names;
      DoneFilesReadsOnlyJson(names[..n], status, status');
    }
  }

  /** Every listed `.json` record whose status is "done" is collected. */
  lemma {:induction false} DoneFilesComplete(names: seq<string>, status: map<string, Option<Value>>, i: nat)
    requires forall n :: n in names ==> n in status
    requires DoneFiles(names, status).Some?
    requires i < |names| && DoneRecord(status, names[i])
    ensures var done := DoneFiles(names, status).value;
      exists k :: 0 <= k < |done| && done[k].0 == names[i]
  {
    var n := |names| - 1;
    var done := DoneFiles(names, status).value;
    if i == n {
      assert done[|done| - 1].0 == names[i];
    } else {
      assert names[..n][i] == names[i];
      assert forall m :: m in names[..n] ==> m in names;
      DoneFilesComplete(names[..n], status, i);
      var before := DoneFiles(names[..n], status).value;
      var k :| 0 <= k < |before| && before[k].0 == names[i];
      assert done[..|before|] == before;
      assert done[k].0 == names[i];
    }
  }

  /** A listed file that is not `.json` is skipped even when it cannot be
      read as JSON, or holds a "done" record. */
  lemma NonJsonSkipped(doneRecord: Value)
    ensures DoneFiles(["notes.txt"], map["notes.txt" := None]) == Some([])
    ensures DoneFiles(["x.bak"], map["x.bak" := Some(doneRecord)]) == Some([])
  {
    assert !EndsWith("notes.txt", ".json");
    assert !EndsWith("x.bak", ".json");
  }

  lemma {:induction false} DoneFilesAreDone(names: seq<string>, status: map<string, Option<Value>>)
    requires forall n :: n in names ==> n in status
    requires DoneFiles(names, status).Some?
    ensures var done := DoneFiles(names, status).value;
      forall k :: 0 <= k < |done| ==> done[k].0 in names && DoneRecord(status, done[k].0)
  {
    if names != [] {
      var n := |names| - 1;
      DoneFilesAreDone(names[..n], status);
      assert forall m :: m in names[..n] ==> m in names;
    }
  }

  /** Parsing the start times keeps every file name in its place. */
  lemma {:induction false} DoneTimesNames(done: seq<(string, Value)>, parse: string -> Option<int>)
    requires DoneTimes(done, parse).Some?
    ensures forall k :: 0 <= k < |done| ==> DoneTimes(done, parse).value[k].0 == done[k].0
  {
    if done != [] {
      var n := |done| - 1;
      DoneTimesNames(done[..n], parse);
    }
  }

  lemma RetentionDeletesOf(done: seq<(string, Value)>, maxDone: nat, parse: string -> Option<int>, keyed: seq<(string, int)>)
    requires DoneTimes(done, parse) == Some(keyed) && |done| > maxDone
    ensures RetentionDeletes(done, maxDone, parse) == NamesOf(OldestFirst(keyed, |done| - maxDone))
  {
  }

  /** The first `count` entries once sorted by start time. */
  function OldestFirst(keyed: seq<(string, int)>, count: nat): seq<(string, int)> {
    var sorted := SortByTime(keyed);
    if count <= |sorted| then sorted[..count] else sorted
  }

  predicate SortedByTime(s: seq<(string, int)>) {
    forall i, j :: 0 <= i < j < |s| ==> s[i].1 <= s[j].1
  }

  lemma {:induction false} InsertSorted(x: (string, int), s: seq<(string, int)>)
    requires SortedByTime(s)
    ensures SortedByTime(Insert(x, s))
  {
    if s != [] && x.1 >= s[0].1 {
      InsertSorted(x, s[1..]);
      InsertBound(x, s[1..], s[0].1);
      var r := Insert(x, s[1..]);
      assert Insert(x, s) == [s[0]] + r;
    }
  }

  /** Inserting an entry no earlier than `b` among entries no earlier than
      `b` gives entries no earlier than `b`. */
  lemma {:induction false} InsertBound(x: (string, int), s: seq<(string, int)>, b: int)
    requires x.1 >= b && forall k :: 0 <= k < |s| ==> s[k].1 >= b
    ensures forall k :: 0 <= k < |Insert(x, s)| ==> Insert(x, s)[k].1 >= b
  {
    if s != [] && x.1 >= s[0].1 {
      InsertBound(x, s[1..], b);
      assert Insert(x, s) == [s[0]] + Insert(x, s[1..]);
    }
  }

  /** The sort yields the same entries, ordered by start time. */
  lemma {:induction false} SortByTimeSorted(s: seq<(string, int)>)
    ensures SortedByTime(SortByTime(s))
    ensures multiset(SortByTime(s)) == multiset(s)
  {
    if s != [] {
      SortByTimeSorted(s[..|s| - 1]);
      InsertSorted(s[|s| - 1], SortByTime(s[..|s| - 1]));
    }
  }

  lemma SortByTimeLength(s: seq<(string, int)>)
    ensures |SortByTime(s)| == |s|
  {
    var r := SortByTime(s);
    assert |multiset(r)| == |multiset(s)|;
  }

  function NamesOf(s: seq<(string, int)>): set<string> {
    set k | 0 <= k < |s| :: s[k].0
  }

  function Filter(names: seq<string>, gone: set<string>): (r: seq<string>)
    ensures forall n :: n in r <==> n in names && n !in gone
  {
    if names == [] then []
    else if names[0] in gone then Filter(names[1..], gone)
    else [names[0]] + Filter(names[1..], gone)
  }

  lemma {:induction false} WithoutNothing(names: seq<string>)
    ensures Filter(names, {}) == names
  {
    if names != [] {
      WithoutNothing(names[1..]);
    }
  }

  lemma {:induction false} FilterMore(names: seq<string>, gone: set<string>, n: string)
    ensures Filter(Filter(names, gone), {n}) == Filter(names, gone + {n})
  {
    if names != [] {
      FilterMore(names[1..], gone, n);
    }
  }

  /** The entries retention keeps. */
  function Kept(keyed: seq<(string, int)>, count: nat): seq<(string, int)> {
    var sorted := SortByTime(keyed);
    if count <= |sorted| then sorted[count..] else []
  }

  /** Retention splits the "done" records: `count` are deleted and the rest
      kept, and together they are exactly the "done" records. */
  lemma OldestDonePartition(keyed: seq<(string, int)>, count: nat)
    requires count <= |keyed|
    ensures |OldestFirst(keyed, count)| == count
    ensures |Kept(keyed, count)| == |keyed| - count
    ensures multiset(OldestFirst(keyed, count)) + multiset(Kept(keyed, count)) == multiset(keyed)
  {
    var sorted := SortByTime(keyed);
    SortByTimeLength(keyed);
    assert sorted == sorted[..count] + sorted[count..];
  }

  /** Retention keeps the newest: every deleted "done" record starts no
      later than every kept one. */
  lemma OldestDoneDeleted(keyed: seq<(string, int)>, count: nat)
    requires count <= |keyed|
    ensures forall d, e :: d in OldestFirst(keyed, count) && e in Kept(keyed, count) ==> d.1 <= e.1
  {
    var sorted := SortByTime(keyed);
    SortByTimeSorted(keyed);
    SortByTimeLength(keyed);
    forall d, e | d in sorted[..count] && e in sorted[count..]
      ensures d.1 <= e.1
    {
      var i :| 0 <= i < count && sorted[..count][i] == d;
      var j :| 0 <= j < |sorted| - count && sorted[count..][j] == e;
      assert sorted[i] == d && sorted[count + j] == e;
    }
  }
}
