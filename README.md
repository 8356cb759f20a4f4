# melvin-asr: a verified model of the sequential core

melvin-asr is a speech-recognition service. Whisper models run behind a
REST API, a whisper.cpp runner and several websocket streaming servers;
browser clients frame microphone audio and render transcripts. Between
the servers and the model calls sit small sequential algorithms. This
project models those in Dafny and proves what they promise:

- **Audio framing in the browser.** `AudioProcessor.process` cuts fixed
  frames from a growing sample buffer. The script-processor client packs
  samples into a fixed 64000-sample array and sends it when it overflows.
  Both models are classes over the buffer state. The proofs cover
  conservation (no sample lost or duplicated), buffer bounds and the
  float-to-int16 conversion, including JavaScript's ToInt16 wrap-around.
- **Server-side stream dispatch.** `Stream.echo` (src/websocket/stream.py),
  `WebSocketServer.echo` (src/api/websocket/websockets_app.py) and the vosk
  server's sliding window. Each is a class whose fields the message loop
  updates. The shared cache/threshold rule is the function
  `ChunkDispatch.Dispatch`; the proofs cover the cache bounds, the audio
  conservation and the latency rules that keep the partial threshold
  between its floor and ceiling.
- **Worker seats** (src/websocket/stream_transcriber.py): the counter,
  the factories and the device/compute-type fallback.
- **Transcript agreement.** `LocalAgreement`, the final-context detector
  and the window de-duplication of remove_duplicate.py.
- **Alignment and tokenisation.** `align_segments` distributes translated
  tokens over transcript words by exact fractions. It is modelled by the
  two-pointer walk, proved to hand out every token once, in order.
  `get_segments_from_alignment` folds punctuation into the previous word,
  and `merge_subwords` rejoins `##` pieces.
- **Parsers and renderers.** The segment-info parser, and rest.js's
  transcript rendering, upload form and status poll.
- **Settings, configuration and job selection.** The transcription
  settings merge; the REST transcriber's configuration defaults and model
  guard; the oldest-job selection of the REST runner and of the
  whisper.cpp data handler; and the whisper.cpp retention rule that keeps
  the newest done jobs.

Times, latencies and thresholds are `real`s. Byte and sample buffers are
sequences. Dictionaries that the source reads as JSON are
`JsonValue.Value`. Calls into Whisper, the file system, clocks and
timers become parameters of the operations that use them.

One test does not match the code. The mismatched-length test in
src/helper/test/test_translation_alignment.py:69-102 expects words 1 and
2 to read "Welt" and "Test". The walk as written leaves the zero-overlap
boundary words empty: the six words get `Hallo`, ``, `Welt`, ``, `Test`,
``. `AlignTranslation.SixWordsThreeTokens` proves this. The model follows
the code.

The runner tests in src/transcription/test/test_rest_runner.py exercise
an older `Runner` (src/transcription/rest_runner.py, not part of this
model) that hands selection to a data handler. Their status records are
used here as scenarios for the selection rule of src/rest/runner.py
(`RestRunner.OldestFirst`, `RestRunner.TestCandidates`,
`RestRunner.TestFirstCandidate`, `RestRunner.TestRecordEligible`).

`flush_confirmed` in src/helper/local_agreement.py:25 is modelled as
written, with its always-False flag, and next to it as evidently
intended; see "## Findings".

## Model

| member | source | states |
|---|---|---|
| AlignTranslation.FirstTokenSpec | src/helper/align_translation_segments.py:69-93 | token j starts inside or after word i's fraction range exactly when j·N ≥ i·M, the exact-fraction comparison the walk makes |
| AlignTranslation.FirstTokenProduct | src/helper/align_translation_segments.py:69-93 | a token index is at or past word i's first token exactly when j·N ≥ i·M |
| AlignTranslation.LastWordFirstToken | src/helper/test/test_translation_alignment.py:69-102 | with three tokens over six words, the last word's range starts at token 3, past the end |
| AlignTranslation.FirstTokenMonotone | src/helper/align_translation_segments.py:76-93 | later words never start at an earlier token |
| AlignTranslation.FirstTokenAtEnd | src/helper/align_translation_segments.py:76-93 | word 0 starts at token 0 and the end of word N is token M, so no token falls outside the words |
| AlignTranslation.Distribution | src/helper/align_translation_segments.py:62 | one token list per original word, each holding exactly the tokens whose fraction starts inside that word's range |
| AlignTranslation.DistributionPrefix | src/helper/align_translation_segments.py:76-93 | the token lists of the first k words, concatenated, are the tokens before word k's first token |
| AlignTranslation.DistributionIsPartition | src/helper/align_translation_segments.py:56-93 | the per-word token lists, concatenated in word order, are the translated tokens: each token is assigned once, in order |
| AlignTranslation.Distribute | src/helper/align_translation_segments.py:62-93 | the two-pointer while-loop computes the distribution |
| AlignTranslation.WalkStep | src/helper/align_translation_segments.py:76-93 | one turn of the walk keeps the walk's invariant and makes progress: either pointer advances |
| AlignTranslation.WalkEnd | src/helper/align_translation_segments.py:76 | when either pointer runs out, every word holds its final token list |
| AlignTranslation.SixWordsThreeTokens | src/helper/test/test_translation_alignment.py:69-102 | three tokens over six words give `Hallo`, nothing, `Welt`, nothing, `Test`, nothing |
| AlignTranslation.LastWordEmpty | src/helper/align_translation_segments.py:76-93 | a word whose range starts after the last token's start gets no token |
| AlignTranslation.WordTokensBetween | src/helper/align_translation_segments.py:76-93 | word i gets exactly the tokens from its first token up to the next word's first token |
| AlignTranslation.SegmentEntries | src/helper/align_translation_segments.py:47-48 | one entry per word of a segment, recording the segment index, word index and word |
| AlignTranslation.EntriesBefore | src/helper/align_translation_segments.py:45-48 | the flat word list of the first s segments only refers to those segments |
| AlignTranslation.EntriesBeforeLength | src/helper/align_translation_segments.py:45-48 | the flat word list is as long as the word counts of its segments added up |
| AlignTranslation.Retexted | src/helper/align_translation_segments.py:105-110 | a new word takes the given text and keeps start, end and probability |
| AlignTranslation.RetextWords | src/helper/align_translation_segments.py:103-111 | retexting a word list keeps its length and retexts each word with its own text |
| AlignTranslation.NonEmptyTexts | src/helper/align_translation_segments.py:115 | the texts of the words with non-empty text, none empty, at most one per word |
| AlignTranslation.Joined | src/helper/align_translation_segments.py:104 | each word's tokens joined by single spaces, "" for a word without tokens |
| AlignTranslation.Rebuilt | src/helper/align_translation_segments.py:95-115 | one new segment per original segment, each built from its own words |
| AlignTranslation.AlignSegments | src/helper/align_translation_segments.py:32-117 | `align_segments` computes the specification `Align`, error included |
| AlignTranslation.CollectEntries | src/helper/align_translation_segments.py:45-48 | the nested loop builds the flat word list in transcript order |
| AlignTranslation.FillSegments | src/helper/align_translation_segments.py:97-111 | each new segment has the original's start and end, and the retexted words of its own segment in order |
| AlignTranslation.FillStep | src/helper/align_translation_segments.py:103-111 | appending one flat word to its segment extends exactly that segment |
| AlignTranslation.OffsetMonotone | src/helper/align_translation_segments.py:97-111 | the flat-word offset of a later segment is never smaller |
| AlignTranslation.FilledSegment | src/helper/align_translation_segments.py:103-111 | the entries of one segment fill that segment with its retexted words, and no other |
| AlignTranslation.FilledAbsent | src/helper/align_translation_segments.py:103-111 | without entries of a segment, no word is added to it |
| AlignTranslation.FilledOwnSegment | src/helper/align_translation_segments.py:97-111 | after the first k segments, segment s < k holds exactly its own words with the texts at its offsets |
| AlignTranslation.FixTexts | src/helper/align_translation_segments.py:114-115 | every segment's text is set from its words and nothing else changes |
| AlignTranslation.AlignFailsExactly | src/helper/align_translation_segments.py:50-54 | alignment fails, with status 400 and its message, exactly when the transcript has no words or the translation is blank |
| AlignTranslation.RebuiltSegment | src/helper/align_translation_segments.py:97-115 | new segment s holds the original's timing and its own words, retexted with their token texts |
| AlignTranslation.AlignKeepsStructure | src/helper/align_translation_segments.py:95-115 | the result's text is the translation; it has the same segments with the same start and end, the same word count with the same start, end and probability, and each segment's text is its non-empty word texts joined by spaces |
| AlignTranslation.RebuiltShape | src/helper/align_translation_segments.py:97-115 | per segment: the timing, word count and word timing are kept, and the text is its non-empty word texts joined |
| AlignTranslation.AlignUsesEveryToken | src/helper/align_translation_segments.py:56-93 | on success the per-word token lists concatenated are `translated_text.split()` |
| AlignTranslation.AlignWordTokens | src/helper/align_translation_segments.py:103-105 | word w of segment s reads its own token list joined by spaces, which splits back to that list |
| AlignTranslation.RebuiltWord | src/helper/align_translation_segments.py:103-111 | word w of segment s takes the text at its flat position |
| AlignTranslation.SplitJoinedTokens | src/helper/align_translation_segments.py:104 | a word's tokens joined by spaces split back into those tokens |
| TextUtil.WordLength | src/helper/align_translation_segments.py:56 | the leading run of non-space characters, stopped by a space or the end |
| TextUtil.Split | src/helper/align_translation_segments.py:56 | `str.split()` gives non-empty words without white space |
| TextUtil.SplitEmptyIffBlank | src/helper/align_translation_segments.py:50-56 | a string splits to no words, and strips to "", exactly when it is blank |
| TextUtil.SplitJoinSpace | example/POC_remove_duplicates/remove_duplicate.py:7-20 | joining words without white space by single spaces and splitting again gives the words back |
| TextUtil.Strip | src/helper/align_translation_segments.py:50 | `str.strip()` never lengthens its argument |
| TextUtil.TrimStart | src/helper/align_translation_segments.py:50 | leading white space removed; empty exactly for a blank string |
| TextUtil.TrimEnd | src/helper/align_translation_segments.py:50 | trailing white space removed, leaving a prefix; empty exactly for a blank string |
| TextUtil.LowerChar | src/helper/local_agreement.py:75 | one character lower-cased: one or two characters, none of them A–Z, U+0130 or U+212A |
| TextUtil.Lower | src/helper/local_agreement.py:75 | `str.lower()` for every character whose lower case holds a–z (A–Z, U+0130 to "i" plus U+0307, the Kelvin sign U+212A to "k"), so none of those is left; it never shortens and at most doubles the length |
| TextUtil.LowerAppend | src/helper/local_agreement.py:75 | lower-casing works piecewise |
| TextUtil.KeepAz | src/helper/local_agreement.py:77 | `re.sub(r"[^a-z]", "", text)` keeps only a–z characters |
| TextUtil.StripChars | src/helper/local_agreement.py:78 | `strip(".,?!")` never lengthens its argument |
| TextUtil.CanonicalTailIsIdentity | src/websocket/final_context_detector.py:74-78 | after keeping only a–z, the trailing lower/strip/strip(".,?!") change nothing |
| TextUtil.CanonicalPrefixLength | src/websocket/final_context_detector.py:64-72 | the longest prefix on which the two lists agree word by word after canonicalisation: every word before agrees, the next one does not |
| TextUtil.CanonicalPrefixOfItself | src/websocket/final_context_detector.py:64-72 | a list agrees with itself throughout |
| TextUtil.CanonicalPrefixSymmetric | src/websocket/final_context_detector.py:64-72 | the agreed length does not depend on the order of the two lists |
| TextUtil.CanonicalIsAz | src/websocket/final_context_detector.py:74-78 | `canonicalize_word` output holds only a–z |
| TextUtil.CanonicalIdempotent | src/websocket/final_context_detector.py:74-78 | canonicalising twice is canonicalising once |
| TextUtil.CanonicalCaseInsensitive | src/websocket/final_context_detector.py:74-78 | lower-casing, or ASCII upper-casing, the input first changes nothing |
| TextUtil.CanonicalAppend | src/websocket/final_context_detector.py:74-78 | canonicalisation works piecewise on the characters |
| TextUtil.CanonicalChar | src/websocket/final_context_detector.py:74-78 | each character keeps only the a–z letter its lower case holds: itself for a–z, its lower case for A–Z, "i" for U+0130, "k" for U+212A, nothing otherwise |
| DeviceConfig.Normalize | src/websocket/stream_transcriber.py:66-98 | an accepted (device, compute_type) pair is kept, any other becomes cpu/int8, and the result is always accepted |
| DeviceConfig.NormalizeIdempotent | src/websocket/stream_transcriber.py:66-98 | normalising an already normalised pair changes nothing |
| JsonValue.BeforeFirstDot | src/rest/runner.py:136 | `split(".")[0]`: the prefix before the first dot, the whole string when there is none |
| StreamTranscriber.SeatsAccounting | src/websocket/stream_transcriber.py:134-158 | from a non-negative count, any sequence of `get_worker`/`return_worker` calls leaves a non-negative count equal to the start, minus the seats granted, plus the returns |
| StreamTranscriber.GrantsBoundedWithoutReturns | src/websocket/stream_transcriber.py:140-144 | without returns, no more seats are granted than were available |
| StreamTranscriber.ReturnsNone | src/websocket/stream_transcriber.py:146-153 | a sequence of gets alone returns no seat |
| StreamTranscriber.Transcriber.constructor | src/websocket/stream_transcriber.py:18-47 | the fields take the arguments, the seat count starts at `num_workers`, and the model is loaded with the normalised device/compute pair or not at all |
| StreamTranscriber.Transcriber.ForGpu | src/websocket/stream_transcriber.py:49-53 | cuda, float16, no CPU threads and one worker |
| StreamTranscriber.Transcriber.ForCpu | src/websocket/stream_transcriber.py:55-58 | cpu, int8, device index [1], the given threads and workers |
| StreamTranscriber.Transcriber.LoadModel | src/websocket/stream_transcriber.py:66-98 | `True` at once when a model is loaded; otherwise a model with the accepted pair or the cpu/int8 fallback, or `False` when loading fails; the seats are untouched |
| StreamTranscriber.Transcriber.WorkerAvailable | src/websocket/stream_transcriber.py:155-158 | a worker is available exactly when the count is positive |
| StreamTranscriber.Transcriber.GetWorker | src/websocket/stream_transcriber.py:134-144 | granted exactly when the count was positive, and then the count drops by one; otherwise it is unchanged |
| StreamTranscriber.Transcriber.ReturnWorker | src/websocket/stream_transcriber.py:146-153 | the count grows by one, with no cap |
| StreamTranscriber.UnmatchedReturnExceedsWorkers | src/websocket/stream_transcriber.py:146-153 | a return without a get takes the count above `num_workers` |
| OldestQuery.Pick | src/rest/runner.py:123-129 | the running minimum picks an eligible record, or none |
| OldestQuery.PickIsEarliest | src/rest/runner.py:123-129 | nothing is picked exactly when no record is eligible; otherwise the pick has the strictly earliest start time, the first in listing order on ties |
| OldestQuery.EarliestUnique | src/rest/runner.py:123-129 | only one record is the first of the earliest |
| OldestQuery.AnswerIsEarliest | src/rest/runner.py:141-143 | "None" when nothing is eligible; otherwise the earliest record's id when it is truthy, and "None" when it is not |
| OldestQuery.PickStep | src/rest/runner.py:124-129 | one turn of the loop: a record replaces the current pick only when it is strictly earlier |
| RestRunner.DataDirectory.constructor | src/rest/runner.py:97 | a status directory holds the listed names, their contents and the audio files |
| RestRunner.DataDirectory.DeleteStatusFile | src/rest/runner.py:137 | removes `<id>.json` from the listing and its contents and leaves the audio files |
| RestRunner.DataDirectory.DeleteAudioFile | src/rest/runner.py:138 | removes `<id><format>` and leaves the status files |
| JsonValue.RemoveKey | src/rest/runner.py:137 | the directory's contents without one name, the rest unchanged |
| RestRunner.Without | src/rest/runner.py:137 | the listing without one name |
| RestRunner.WithoutAbsent | src/rest/runner.py:137 | removing a name that is not listed changes nothing |
| RestRunner.Classify | src/rest/runner.py:104-139 | a file is eligible exactly when it is a readable `.json` record, in_query, with a start time and with no model or the runner's model; unreadable records fail, other names are skipped |
| RestRunner.Candidates | src/rest/runner.py:104-139 | one entry per file seen so far |
| RestRunner.CandidatesStep | src/rest/runner.py:104-139 | one more file adds its own entry, and the pick moves to it exactly when it is strictly earlier |
| RestRunner.DirectoryAfterDelete | src/rest/runner.py:131-139 | deleting one more failed record keeps the directory equal to the initial one minus the failed ids' files |
| RestRunner.DeleteRecordFiles | src/rest/runner.py:136-138 | the failed record's status and audio files are gone and every other file is untouched |
| RestRunner.ScanFile | src/rest/runner.py:104-139 | one turn of the loop keeps the running minimum and the deletions in step with the specification |
| RestRunner.GetOldestStatusFileInQuery | src/rest/runner.py:88-143 | returns the specification's answer over all listed files, and removes exactly the files of the records that failed to read |
| RestRunner.NothingDeletedWithoutFailures | src/rest/runner.py:131-139 | when no record fails to read, nothing is deleted |
| RestRunner.OldestFirst | src/transcription/test/test_rest_runner.py:33-49 | of the two queued records of the test, "writeOld" is chosen |
| RestRunner.TestCandidates | src/transcription/test/test_rest_runner.py:33-49 | both queued records of the test are eligible, in listing order |
| RestRunner.TestFirstCandidate | src/transcription/test/test_rest_runner.py:20-30 | the single queued record of the test is eligible and nothing is deleted |
| RestRunner.TestRecordEligible | src/transcription/test/test_rest_runner.py:23-28 | a queued record with no model is eligible for any runner |
| RestRunner.Transcribe | src/rest/runner.py:62-86 | a missing task, a missing text or language for align, or a raising transcriber call raises before the audio file is touched; the audio is deleted exactly when the transcriber returned or the task is unknown, and it is the first action; an unsuccessful response sets status error with its data; a response with segments merges the transcript; an unknown task or a response without segments raises after the delete |
| RestRunner.ProcessFound | src/rest/runner.py:48-60 | the record is set in_progress first, and the last action is a status update or the merge; a raised transcription ends in an error status with the exception text |
| RestRunner.EveryTranscriptionSettles | src/rest/runner.py:48-86 | the transcript is merged exactly when the transcriber was called, returned, and succeeded with segments; otherwise the record ends in error; the audio is deleted exactly when the transcriber returned or the task is unknown, and otherwise the record goes from in_progress straight to error with the exception text |
| CppDataHandler.DataHandler.constructor | whispercpp_runner/src/data_handler.py:18-28 | the status directory with its listed names and records, the transcripts, the audio format and `MAX_DONE_FILES` |
| CppDataHandler.DataHandler.UpdateStatusFile | whispercpp_runner/src/data_handler.py:30-48 | a missing record raises and a falsy one is left alone; otherwise the record gets the new status, an end time only for "done" and an error message only when one is given, and nothing else changes |
| CppDataHandler.UpdatedRecordFields | whispercpp_runner/src/data_handler.py:37-43 | the updated record's keys and values field by field: status set, end_time only for "done", error_message only when given, every other field kept |
| CppDataHandler.DataHandler.MergeTranscriptToStatus | whispercpp_runner/src/data_handler.py:50-76 | with both files truthy, the transcript is embedded, its file deleted and the status set to "done"; otherwise the status becomes "error" with "Transcript file not found." and the transcript is kept |
| CppDataHandler.DataHandler.GetOldestStatusFileInQuery | whispercpp_runner/src/data_handler.py:78-104 | raises exactly when a listed `.json` record cannot be read as a dict or its time does not parse; otherwise returns the earliest in_query record's id, first seen on ties, or "None" |
| CppDataHandler.QueryOutcome | whispercpp_runner/src/data_handler.py:84-100 | a record is eligible exactly when it is a `.json` dict, in_query, with a non-empty start time that parses after the "Z" rewrite; other names are skipped |
| CppDataHandler.QueryCandidates | whispercpp_runner/src/data_handler.py:83-100 | one entry per listed file, holding its start time and id when it is eligible |
| CppDataHandler.QueryFailures | whispercpp_runner/src/data_handler.py:83-100 | one flag per listed file, set when reading it raises |
| CppDataHandler.ReplaceZ | whispercpp_runner/src/data_handler.py:93 | `replace("Z", "+00:00")` leaves no "Z" |
| CppDataHandler.ReplaceZAppend | whispercpp_runner/src/data_handler.py:93 | the rewrite works piece by piece |
| CppDataHandler.ReplaceZTrailing | whispercpp_runner/src/data_handler.py:92-94 | a trailing "Z" becomes "+00:00" and a string without "Z" is unchanged |
| CppDataHandler.DataHandler.DeleteOldestDoneStatusFiles | whispercpp_runner/src/data_handler.py:106-125 | raises when a `.json` record cannot be read, or when a needed start time does not parse; deletes nothing while the done count is at most the maximum; otherwise deletes exactly the retention set and nothing else |
| CppDataHandler.DataHandler.CollectDoneFiles | whispercpp_runner/src/data_handler.py:109-117 | the loop skips names not ending in `.json` and collects the (name, start_time) of the "done" records in listing order |
| CppDataHandler.SortKeys | whispercpp_runner/src/data_handler.py:120-122 | every sort key is the start time parsed after the "Z" rewrite |
| CppDataHandler.DataHandler.DeleteOldest | whispercpp_runner/src/data_handler.py:119-125 | the oldest `count` records once sorted are deleted and nothing else |
| CppDataHandler.DataHandler.DeleteFirst | whispercpp_runner/src/data_handler.py:123-125 | the loop deletes exactly the first `count` sorted records |
| CppDataHandler.DoneTimes | whispercpp_runner/src/data_handler.py:120-122 | one key per done record, or a failure when a start time does not parse |
| CppDataHandler.DoneFilesFailure | whispercpp_runner/src/data_handler.py:109-117 | one unreadable or non-dictionary `.json` record makes the collection fail |
| CppDataHandler.DoneTimesFailure | whispercpp_runner/src/data_handler.py:120-122 | one start time that is not a string or does not parse makes the sort fail |
| CppDataHandler.Insert | whispercpp_runner/src/data_handler.py:120-122 | inserting keeps all entries and adds exactly one |
| CppDataHandler.SortByTime | whispercpp_runner/src/data_handler.py:120-122 | the sort is a permutation of its input |
| CppDataHandler.InsertSorted | whispercpp_runner/src/data_handler.py:120-122 | inserting into a sorted list keeps it sorted |
| CppDataHandler.SortByTimeSorted | whispercpp_runner/src/data_handler.py:120-122 | the sort is ordered by start time and a permutation of its input |
| CppDataHandler.RetentionDeletesOf | whispercpp_runner/src/data_handler.py:119-125 | the retention set is the names of the oldest `count − max_done_files` done records |
| CppDataHandler.OldestDonePartition | whispercpp_runner/src/data_handler.py:119-125 | exactly `count − max_done_files` records are deleted, the rest kept, and together they are the done records |
| CppDataHandler.OldestDoneDeleted | whispercpp_runner/src/data_handler.py:119-125 | no deleted record started later than a kept one: the newest `max_done_files` are kept |
| CppDataHandler.RetentionDeletesOnlyDone | whispercpp_runner/src/data_handler.py:110-117 | retention deletes only listed `.json` records whose status is "done" |
| CppDataHandler.RetentionDeletesFromDone | whispercpp_runner/src/data_handler.py:117-124 | every deleted name is the name of a collected done record |
| CppDataHandler.DoneFilesAreDone | whispercpp_runner/src/data_handler.py:110-117 | the collected records are listed `.json` names whose status is "done" |
| CppDataHandler.DoneFilesComplete | whispercpp_runner/src/data_handler.py:110-117 | every listed `.json` record whose status is "done" is collected |
| CppDataHandler.DoneFilesReadsOnlyJson | whispercpp_runner/src/data_handler.py:111 | only the `.json` names are read: directories that agree on them give the same collection |
| CppDataHandler.NonJsonSkipped | whispercpp_runner/src/data_handler.py:111 | a non-`.json` file is skipped whether it is unreadable or holds a "done" record |
| TranscriptionSettings.OverriddenFields | src/helper/transcription_settings.py:89-101 | an override keeps the base's key set; a shared key takes the new value and every other key keeps its old one |
| TranscriptionSettings.OverriddenIdempotent | src/helper/transcription_settings.py:89-101 | overriding twice with the same values changes nothing more; overriding with nothing, or with the base itself, is the identity |
| TranscriptionSettings.OverriddenIgnoresUnknown | src/helper/transcription_settings.py:90-92 | keys unknown to the defaults make no difference |
| TranscriptionSettings.Settings.constructor | src/helper/transcription_settings.py:53-81 | the literal defaults with the configured `transcription_default` applied over them, so configured values win for known keys |
| TranscriptionSettings.Settings.ApplyConfigDefaults | src/helper/transcription_settings.py:96-101 | the loop overwrites exactly the defaults the configuration also names and adds no key |
| TranscriptionSettings.Settings.GetAndUpdateSettings | src/helper/transcription_settings.py:83-94 | without settings, the defaults; otherwise the defaults with every key the caller also gives taken from the caller; the defaults are not changed |
| TranscriptionSettings.SettingsTests | src/helper/test/test_transcription_settings.py:17-36 | with defaults {language: en, task: transcribe}, updating both gives the caller's settings, and updating the language alone keeps the task |
| RestTranscriber.NormalizePair | src/rest/rest_transcriber.py:81-93 | an accepted (device, compute_type) pair is kept and any other becomes cpu/int8, so the result is always accepted |
| RestTranscriber.NormalizePairAgrees | src/rest/rest_transcriber.py:81-93 | on strings, the REST transcriber's check is the streaming transcriber's |
| RestTranscriber.ConfigOr | src/rest/rest_transcriber.py:50-78 | the configured value when the key is present, the default otherwise |
| RestTranscriber.ResultOf | src/rest/rest_transcriber.py:118-128 | the result has exactly the keys "success" and "data"; success is true exactly for a successful call, whose data it carries; a failure carries its message |
| RestTranscriber.Transcriber.constructor | src/rest/rest_transcriber.py:50-95 | each field takes its configured value or its default (cpu, tiny, int8, 0, 1, 4); an unaccepted pair falls back to cpu/int8 with the other fields untouched; no model is loaded |
| RestTranscriber.Transcriber.LoadModel | src/rest/rest_transcriber.py:98-110 | `True` without rebuilding when a model is loaded; otherwise one build with the current settings, then `None`, or the exception when building fails |
| RestTranscriber.Transcriber.TranscribeAudioFile | src/rest/rest_transcriber.py:112-138 | a failed model build raises; otherwise Whisper runs with the request's settings over the configured defaults, and its failure comes back as `{"success": False, "data": message}` |
| RestTranscriber.Transcriber.AlignAudioFile | src/rest/rest_transcriber.py:140-157 | the same shape with the alignment's outcome |
| RestTranscriber.EffectiveSettings | src/rest/rest_transcriber.py:130-138 | Whisper always receives the full set of known decoder settings |
| RestTranscriber.LoadTwice | src/rest/rest_transcriber.py:98-110 | two loads in a row build the model once; the second returns `True` |
| RestClient.EscapeSpaces | example/frontend-testing/rest.js:54 | `replace(/\s/g, '&nbsp;')` leaves no white space and never shortens the text |
| RestClient.EscapeSpacesAppend | example/frontend-testing/rest.js:54 | the replacement works piece by piece |
| RestClient.EscapeSpacesWithoutSpace | example/frontend-testing/rest.js:54 | text without white space is left as it is |
| RestClient.EscapeSpacesLength | example/frontend-testing/rest.js:54 | each white-space character grows into the six-character entity and nothing else changes length |
| RestClient.SegmentSpans | example/frontend-testing/rest.js:53-55 | one tooltip span per word of the segment, in word order |
| RestClient.RenderedStep | example/frontend-testing/rest.js:52-56 | rendering one more segment appends that segment's spans |
| RestClient.TimestampedText | example/frontend-testing/rest.js:50-58 | the nested loops build the rendering of all segments, in segment then word order |
| RestClient.AppendSegmentSpans | example/frontend-testing/rest.js:53-55 | the inner loop appends exactly the segment's spans to the buffer |
| RestClient.RenderedConcat | example/frontend-testing/rest.js:50-58 | rendering a list of segments is rendering each part in turn |
| RestClient.RenderedNoWords | example/frontend-testing/rest.js:50-58 | segments without words, and an empty list, render to "" |
| RestClient.RenderedWhiteSpaceLength | example/frontend-testing/rest.js:54 | asking for white space adds exactly one `&nbsp;` per word and nothing else |
| RestClient.EscapeExample | example/frontend-testing/rest.js:54 | "a b" becomes "a&nbsp;b" |
| RestClient.SingleWordRendered | example/frontend-testing/rest.js:50-58 | one segment of one word renders to that word's span |
| RestClient.OneWordExample | example/frontend-testing/rest.js:54 | the span holds the escaped text, then the tooltip "start-end" |
| RestClient.FormData.constructor | example/frontend-testing/rest.js:35 | a new form has no entries |
| RestClient.FormData.Append | example/frontend-testing/rest.js:36-40 | `append` adds one entry at the end |
| RestClient.CreateFormData | example/frontend-testing/rest.js:34-42 | the form holds the file, language "en" and model "large-v3", in that order |
| RestClient.Poller.constructor | example/frontend-testing/rest.js:194-247 | the spinner is shown, the translation hidden, and the interval timer running |
| RestClient.Poller.HandleResponse | example/frontend-testing/rest.js:208-224 | "finished" renders the transcript, keeps the data and stops the timer (a missing transcript raises first); "failed" shows "Transcription failed" and stops it; "in_query" shows the progress text; any other status changes nothing |
| RestClient.Poller.Poll | example/frontend-testing/rest.js:226-245 | the timer stops exactly on a failed or non-OK fetch, "finished" or "failed"; a failed fetch, and a raising handler, show "Transcription failed" |
| RestClient.PollUntilSettled | example/frontend-testing/rest.js:226-247 | the poll runs once per tick until the first settling reply, and keeps running while no reply settles |
| Pcm.TruncToInt | example/frontend-testing/processor.js:24 | the integer conversion truncates toward zero: never beyond the value and less than one away from it |
| Pcm.ToInt16 | example/frontend-testing/processor.js:21-24 | a value stored into an `Int16Array` lands in [-32768, 32767] and is the truncated value whenever that is already in range |
| Pcm.Clamp | example/frontend-testing/processor.js:24 | the clamped sample lies in [-1, 1] and samples already there are unchanged |
| AudioProcessor.ScaleSampleRange | example/frontend-testing/processor.js:22-25 | every converted sample lies in [-32767, 32767]; 1 and -1 map to the two ends |
| AudioProcessor.ScaleSampleMonotonic | example/frontend-testing/processor.js:24 | a larger sample never converts to a smaller integer |
| AudioProcessor.StepShape | example/frontend-testing/processor.js:9-32 | without a first channel nothing changes; a chunk is cut exactly when the buffer and the new channel reach `chunkSize`, the chunk is `chunkSize` long and the buffer shrinks by that much; otherwise the channel is appended |
| AudioProcessor.StepConserves | example/frontend-testing/processor.js:13-18 | the cut chunk followed by the new buffer is the old buffer followed by the channel |
| AudioProcessor.RunConserves | example/frontend-testing/processor.js:9-32 | over any sequence of calls, the chunks posted followed by what is still buffered are exactly the samples pushed, in order |
| AudioProcessor.RunChunkSizes | example/frontend-testing/processor.js:16-18 | every posted chunk is `chunkSize` samples |
| AudioProcessor.RunStaysBelowChunk | example/frontend-testing/processor.js:16-18 | when no call brings more than a chunk, the buffer stays below `chunkSize` after every call |
| AudioProcessor.AudioProcessor.constructor | example/frontend-testing/processor.js:2-7 | the sample rate given, an empty buffer and nothing pushed or posted |
| AudioProcessor.AudioProcessor.Process | example/frontend-testing/processor.js:9-32 | always returns true; the buffer and the posted messages follow one step of the framing, the message being the converted chunk |
| AudioProcessor.ConvertedFrameAt | example/frontend-testing/processor.js:21-25 | each converted sample is the clamped, scaled, truncated input sample at the same index |
| AudioProcessor.ConvertToInt16 | example/frontend-testing/processor.js:21-25 | the conversion loop produces the converted frame, every value within [-32767, 32767] |
| ScriptProcessorClient.SendSampleInRange | example/voice_client_with_script_processor_new.js:127 | for samples not below -1 the conversion is the truncated scaled value in [-32767, 32767] |
| ScriptProcessorClient.SendSampleWrapsBelowMinusOne | example/voice_client_with_script_processor_new.js:127 | with only the upper clamp, -2.0 wraps round to +2 |
| ScriptProcessorClient.SendFrameAt | example/voice_client_with_script_processor_new.js:125-128 | each sent sample is the conversion of the accumulated sample at the same index |
| ScriptProcessorClient.AccumulateStep | example/voice_client_with_script_processor_new.js:99-147 | a frame is cut exactly when the samples overflow the 4-second array; it is full, starts with the earlier samples, and the frame then the leftover are the old samples then the input |
| ScriptProcessorClient.ExactFillSentNext | example/voice_client_with_script_processor_new.js:109-113 | a callback that fills the array exactly keeps it; the next non-empty callback sends it and starts over with its own samples |
| ScriptProcessorClient.Accumulator.constructor | example/voice_client_with_script_processor_new.js:96-97 | no samples accumulated in a fresh array of `targetBufferSize` |
| ScriptProcessorClient.Accumulator.SendAudio | example/voice_client_with_script_processor_new.js:99-147 | the accumulated samples follow one accumulation step; every cut frame is recorded and, only when the socket is open, sent converted; the array is replaced exactly when a frame is cut |
| ScriptProcessorClient.Accumulator.Append | example/voice_client_with_script_processor_new.js:109-112 | the input is appended to the accumulated samples in the same array |
| ScriptProcessorClient.Accumulator.CutFrame | example/voice_client_with_script_processor_new.js:113-146 | the frame is the old samples topped up from the input; the leftover input becomes the new contents of a fresh array |
| ScriptProcessorClient.Accumulator.TopUp | example/voice_client_with_script_processor_new.js:115-120 | the array is filled to the end with the given part |
| ScriptProcessorClient.Accumulator.Refill | example/voice_client_with_script_processor_new.js:133-145 | a fresh array whose contents are the leftover samples |
| ScriptProcessorClient.Accumulator.ConvertAccumulated | example/voice_client_with_script_processor_new.js:124-128 | the loop gives the conversion of the whole array |
| ScriptProcessorClient.CopyInto | example/voice_client_with_script_processor_new.js:111-119 | `set(src, offset)` overwrites exactly the positions from the offset and leaves the rest |
| ChunkDispatch.RecentsConcat | src/websocket/stream.py:84-107 | the recent-cache arguments of two batches of requests are those of each batch in turn |
| ChunkDispatch.FinalChunksConcat | src/websocket/stream.py:84-90 | likewise for the long-cache arguments of final requests |
| ChunkDispatch.Dispatch | src/websocket/stream.py:70-108 | after a binary message both caches are below their thresholds, and no received byte is lost or duplicated between the requests' cache arguments and the caches |
| ChunkDispatch.DispatchKeepsSuffix | src/websocket/stream.py:70-108 | the recent cache stays the tail of the long cache |
| ChunkDispatch.DispatchShape | src/websocket/stream.py:78-108 | at most a final followed by a partial; a final exactly when the long cache with the message reaches the final threshold |
| ChunkDispatch.RecentsStep | src/websocket/stream.py:72-108 | a dispatched batch extends the recent-cache accounting by the message |
| ChunkDispatch.FinalChunksStep | src/websocket/stream.py:71-92 | a dispatched batch extends the long-cache accounting by the message |
| ChunkDispatch.DispatchConserves | src/websocket/stream.py:70-108 | every received byte is in exactly one request's recent-cache argument or still cached, likewise for finals and the long cache, before and after each message |
| ChunkDispatch.BinaryBytesStep | src/websocket/stream.py:73 | the received audio grows by exactly the binary message |
| StreamDispatcher.UpToEof | src/websocket/stream.py:66-120 | the loop consumes a prefix of the messages that ends at the first "eof" and has no earlier one |
| StreamDispatcher.UpToEofStep | src/websocket/stream.py:113-118 | consuming one more message stops after an "eof" and goes on otherwise |
| StreamDispatcher.UpToEofDone | src/websocket/stream.py:66 | when the loop stops, exactly the messages up to the first "eof" were consumed |
| StreamDispatcher.RepliesStep | src/websocket/stream.py:109-120 | a text message adds its one reply; a binary message none |
| StreamDispatcher.AdjustThreshold | src/websocket/stream.py:206-240 | the threshold stays within one second of audio and the final threshold; it grows (or hits the final threshold) when latency beyond the partial threshold exceeds 4 s, shrinks when under 1 s, and is unchanged in between |
| StreamDispatcher.Stream.constructor | src/websocket/stream.py:25-58 | empty caches, open stream, thresholds of 6 s and 1 s of audio |
| StreamDispatcher.Stream.HandleBinary | src/websocket/stream.py:70-108 | the caches and requests follow the dispatch with the current thresholds; the received audio grows by the message |
| StreamDispatcher.Stream.HandleText | src/websocket/stream.py:109-120 | a text containing "eof" is answered with the export name and closes the stream; any other is answered "control message unknown"; the caches are untouched |
| StreamDispatcher.Stream.HandleMessage | src/websocket/stream.py:68-120 | one message: audio and requests grow by the binary part, the reply is the message's, and only "eof" closes the stream |
| StreamDispatcher.Stream.Echo | src/websocket/stream.py:65-130 | a closed stream consumes nothing; otherwise the stream ends closed, having received exactly the audio of the messages up to the first "eof" and sent their replies |
| StreamDispatcher.Stream.EchoLoop | src/websocket/stream.py:66-130 | the loop itself, with the same outcome |
| StreamDispatcher.Stream.EchoStep | src/websocket/stream.py:66-120 | one turn keeps the accounting of consumed messages, received bytes and replies |
| StreamDispatcher.Stream.TranscriptionDone | src/websocket/stream.py:132-204 | a failed transcription call closes the stream; otherwise the threshold is adjusted first, then the recent cache counted as transcribed, and a final's offset is the transcribed seconds minus the recent cache's |
| StreamDispatcher.Stream.AdjustThresholdOnLatency | src/websocket/stream.py:206-240 | the threshold becomes the adjusted one and nothing else changes |
| WebSocketApp.AdjustThreshold | src/api/websocket/websockets_app.py:175-206 | within one second of audio and the final threshold; grows (or hits the final threshold) above 6 s of latency, shrinks below 1.5 s, unchanged in between |
| WebSocketApp.RepliesStep | src/api/websocket/websockets_app.py:97-99 | a non-binary message adds the reply "wrong data type"; a binary one none |
| WebSocketApp.WebSocketServer.constructor | src/api/websocket/websockets_app.py:29-53 | empty caches, thresholds of 6 s and 1 s of audio |
| WebSocketApp.WebSocketServer.HandleBinary | src/api/websocket/websockets_app.py:68-95 | the caches and requests follow the shared dispatch; the received audio grows by the message |
| WebSocketApp.WebSocketServer.Echo | src/api/websocket/websockets_app.py:60-110 | a connection restarts the audio counters but not the caches; every byte received since the server was built stays accounted for; every non-binary message is answered "wrong data type" |
| WebSocketApp.WebSocketServer.EchoStep | src/api/websocket/websockets_app.py:64-99 | one turn keeps the accounting of received bytes and replies |
| WebSocketApp.WebSocketServer.TranscriptionDone | src/api/websocket/websockets_app.py:118-148 | the threshold is adjusted first, then the recent cache counted as transcribed |
| WebSocketApp.WebSocketServer.AdjustThresholdOnLatency | src/api/websocket/websockets_app.py:175-206 | the threshold becomes the adjusted one and nothing else changes |
| VoskServer.Slide | example/vosk/faster_whisper_vosk_websocket_server.py:98-103 | the window is a suffix of the old window plus the chunk; once it reaches 100 chunk lengths it keeps its old length, otherwise it is the whole concatenation |
| VoskServer.SlideBound | example/vosk/faster_whisper_vosk_websocket_server.py:98-103 | with equal-length chunks a window of at most 99 whole chunks stays one |
| VoskServer.SlideKeepsSuffix | example/vosk/faster_whisper_vosk_websocket_server.py:98-103 | the window stays a suffix of the recording |
| VoskServer.Step | example/vosk/faster_whisper_vosk_websocket_server.py:47-65 | a chunk extends the recording and gets one reply; a "config" text sets the sample rate and nothing else; otherwise "eof" sends the final (the window, or the empty final for an empty recording) and clears both caches; any other text changes nothing |
| VoskServer.StepKeepsSuffix | example/vosk/faster_whisper_vosk_websocket_server.py:47-65 | every message keeps the window a suffix of the recording |
| VoskServer.RunBound | example/vosk/faster_whisper_vosk_websocket_server.py:100-103 | with equal-length chunks the window never exceeds 99 chunks |
| VoskServer.RunWholeChunks | example/vosk/faster_whisper_vosk_websocket_server.py:100-103 | such a window is always a whole number of chunks, at most 99 |
| VoskServer.RunKeepsSuffix | example/vosk/faster_whisper_vosk_websocket_server.py:42-68 | over a whole connection the window stays a suffix of the recording |
| VoskServer.VoskWebSocketServer.constructor | example/vosk/faster_whisper_vosk_websocket_server.py:20-31 | empty caches, 16000 Hz, one channel of 2-byte samples |
| VoskServer.VoskWebSocketServer.TranscribeChunkPartial | example/vosk/faster_whisper_vosk_websocket_server.py:93-111 | the caches and reply follow one chunk step |
| VoskServer.VoskWebSocketServer.TranscribeAllChunkCache | example/vosk/faster_whisper_vosk_websocket_server.py:70-91 | the final transcribes the window when anything was recorded, and is the empty result otherwise |
| VoskServer.VoskWebSocketServer.HandleMessage | example/vosk/faster_whisper_vosk_websocket_server.py:47-65 | the state and replies follow one message step |
| VoskServer.VoskWebSocketServer.Echo | example/vosk/faster_whisper_vosk_websocket_server.py:42-68 | the state and replies follow the run over the connection's messages |
| LocalAgreement.Texts | src/helper/local_agreement.py:50 | the words' texts, one per word, in order |
| LocalAgreement.StartingAfter | src/helper/local_agreement.py:45-46 | the filtered list is no longer than the input and every kept word starts after the cut |
| LocalAgreement.StartingAfterFromInput | src/helper/local_agreement.py:45-46 | filtering invents no word |
| LocalAgreement.StartingAfterKeeps | src/helper/local_agreement.py:45-46 | the list is unchanged exactly when every word starts after the cut |
| LocalAgreement.StartingAfterSplit | src/helper/local_agreement.py:45-46 | when the early words form a prefix, the filter drops exactly that prefix |
| LocalAgreement.AdmittedAfterOverlap | src/helper/local_agreement.py:45-46 | the overlap filter drops exactly the words starting no later than 0.1 s before the last confirmed end |
| LocalAgreement.EndingAfter | src/helper/local_agreement.py:62-66 | a word is kept exactly when it is one of the input words and ends after the cutoff |
| LocalAgreement.EndingAfterAppend | src/helper/local_agreement.py:62-66 | the filter works piecewise, so the kept words stay in their order |
| LocalAgreement.LastSentenceEnd | src/helper/local_agreement.py:29-39 | the index of a word holding `.`, `?` or `!` with no such word after it, or -1 |
| LocalAgreement.SliceBound | src/helper/local_agreement.py:23-24 | Python's slice bound: non-negative counts are capped at the length, negative ones count from the end |
| LocalAgreement.FindLastSentenceEnd | src/helper/local_agreement.py:30-39 | the backward loop finds the last sentence end |
| LocalAgreement.LocalAgreement.constructor | src/helper/local_agreement.py:9-13 | no words and no sentence end |
| LocalAgreement.LocalAgreement.Clear | src/helper/local_agreement.py:15-18 | both hypotheses and the flag are reset |
| LocalAgreement.LocalAgreement.FlushConfirmed | src/helper/local_agreement.py:20-26 | the first `word_count` confirmed words (all by default) are handed out and the rest kept, in order; the flag always ends False |
| LocalAgreement.LocalAgreement.FlushConfirmedFlagged | src/helper/local_agreement.py:20-26 | the same split, with the flag true exactly when a kept word holds a sentence end |
| LocalAgreement.LocalAgreement.FlushAtSentenceEnd | src/helper/local_agreement.py:28-42 | flushes through the last sentence end, or nothing when there is none; afterwards no confirmed word holds a sentence end |
| LocalAgreement.LocalAgreement.Merge | src/helper/local_agreement.py:44-59 | confirmed grows by the admitted words' agreeing prefix, the rest becomes the unconfirmed hypothesis, and the flag is set from the prefix's text only while it is unset; the result is the confirmed list |
| LocalAgreement.LocalAgreement.GetCommonPrefix | src/helper/local_agreement.py:80-90 | the loop stops at the canonical common-prefix length of the new words and the unconfirmed ones |
| LocalAgreement.ConfirmedTextAll | src/helper/local_agreement.py:61-66 | words all ending after the cutoff are all rendered |
| LocalAgreement.ConfirmedTextNone | src/helper/local_agreement.py:61-66 | words all ending by the cutoff render as "" |
| LocalAgreement.LocalAgreement.ConfirmedText | src/helper/local_agreement.py:61-66 | the confirmed text is every confirmed word joined by spaces when all end more than 0.01 s after the cutoff, and "" when none does |
| LocalAgreement.SecondAgreement | src/helper/test/test_local_agreement.py:10-27 | the second hypothesis agrees with the first on "This is" only |
| LocalAgreement.ThirdAdmitted | src/helper/test/test_local_agreement.py:17-30 | the third merge's overlap filter keeps the words from 2 s on |
| LocalAgreement.Partial3Starts | src/helper/test/test_local_agreement.py:17-20 | word k of the third hypothesis starts at k seconds |
| LocalAgreement.ThirdAgreement | src/helper/test/test_local_agreement.py:28-30 | the admitted words agree with the pending "a test" |
| LocalAgreement.ThirdConfirmed | src/helper/test/test_local_agreement.py:28-30 | the third merge confirms "a test" behind "This is" |
| LocalAgreement.SecondText | src/helper/test/test_local_agreement.py:25-27 | the confirmed text after the second merge is "This is" |
| LocalAgreement.ThirdText | src/helper/test/test_local_agreement.py:28-30 | the confirmed text after the third merge is "This is a test" |
| LocalAgreement.MergeScenario | src/helper/test/test_local_agreement.py:10-30 | three merges give "", "This is", "This is a test" |
| LocalAgreement.RepeatScenario | src/helper/test/test_local_agreement.py:33-47 | for any words ending after 0.01 s, merging them twice confirms them all, and clearing empties the text |
| LocalAgreement.FlushFlagScenario | src/helper/local_agreement.py:25 | after flushing "Hi." from "Hi. Bye.", the flush as written reports no sentence end while "Bye." stays confirmed; the intended flush reports one |
| FinalContextDetector.Words | src/websocket/final_context_detector.py:54-61 | the entries' words, one per entry, in order |
| FinalContextDetector.RemoveFirstFinalWords | src/websocket/final_context_detector.py:17-62 | without a previous final (or with an empty one) the transcription comes back unchanged; otherwise an empty word list fails on `result_words[-1]`, and any other keeps every word and rebuilds the text from them |
| FinalContextDetector.RemoveFirstFinalWordsIdempotent | src/websocket/final_context_detector.py:17-62 | applying the detector to its own output changes nothing more |
| FinalContextDetector.RebuiltTextSplitsIntoWords | src/websocket/final_context_detector.py:59-62 | the rebuilt text splits back into the words when none is empty or holds white space |
| FinalContextDetector.CommonPrefix | src/websocket/final_context_detector.py:64-72 | the loop returns the prefix of `a` on which `a` and `b` agree after canonicalisation |
| RemoveDuplicates.LastWords | example/POC_remove_duplicates/remove_duplicate.py:7 | `ws[-n:]`: the last n words, or all when there are fewer |
| RemoveDuplicates.FirstWords | example/POC_remove_duplicates/remove_duplicate.py:8 | `ws[:n]`: a prefix of length n, or all when there are fewer |
| RemoveDuplicates.LaterWords | example/POC_remove_duplicates/remove_duplicate.py:17 | `ws[n:]`: what follows the first n words |
| RemoveDuplicates.Keep | example/POC_remove_duplicates/remove_duplicate.py:11-14 | never longer than the input |
| RemoveDuplicates.KeepMembers | example/POC_remove_duplicates/remove_duplicate.py:11-14 | a word is kept exactly when it is in the list and not among the dropped ones |
| RemoveDuplicates.KeepAppend | example/POC_remove_duplicates/remove_duplicate.py:12-14 | filtering works word by word |
| RemoveDuplicates.RemoveFirst | example/POC_remove_duplicates/remove_duplicate.py:14 | `list.remove` shortens the list by one |
| RemoveDuplicates.RemoveFirstAfter | example/POC_remove_duplicates/remove_duplicate.py:14 | `list.remove(x)` deletes exactly the first occurrence |
| RemoveDuplicates.RemoveDuplicates | example/POC_remove_duplicates/remove_duplicate.py:1-20 | the loop of removals gives the head window without the words of the previous tail window, then the rest of the new text, joined by spaces |
| RemoveDuplicates.RemoveStep | example/POC_remove_duplicates/remove_duplicate.py:12-14 | one removal turns the copy's prefix into its filtered form, even when the head repeats a word |
| RemoveDuplicates.LaterWordsSurvive | example/POC_remove_duplicates/remove_duplicate.py:17 | the words after the head window always survive, at the end, in order |
| RemoveDuplicates.HeadRemovalByValue | example/POC_remove_duplicates/remove_duplicate.py:11-17 | the result starts with the head window's words that are not in the previous tail window, and with no other |
| RemoveDuplicates.KeepNothing | example/POC_remove_duplicates/remove_duplicate.py:11-14 | nothing to drop keeps every word |
| RemoveDuplicates.EmptyPreviousKeepsAll | example/POC_remove_duplicates/remove_duplicate.py:1-17 | with an empty previous text the new words are kept whole |
| RemoveDuplicates.ResultSplitsIntoWords | example/POC_remove_duplicates/remove_duplicate.py:20 | the joined result splits back into the kept words |
| RemoveDuplicates.ExampleWindows | example/POC_remove_duplicates/remove_duplicate.py:23-28 | the example's tail window, head window and remaining words |
| RemoveDuplicates.ExampleDeduplicated | example/POC_remove_duplicates/remove_duplicate.py:23-28 | on the example, only "Europäischen" is removed |
| RemoveDuplicates.ExampleScenario | example/POC_remove_duplicates/remove_duplicate.py:23-29 | the example prints "Rat am 21. und 22. März 2024." |
| ForcedAlignment.Max | src/helper/forced_alignment.py:126 | Python's `max` of two times: one of them, no smaller than either |
| ForcedAlignment.Step | src/helper/forced_alignment.py:113-135 | a blank word adds nothing; a punctuation token changes only the last word built; any other word adds one word starting and ending at its alignment start, probability 0.99 |
| ForcedAlignment.GetSegmentFromAlignment | src/helper/forced_alignment.py:111-152 | an empty alignment fails on `word_end_times[-1]`; otherwise the segment has id `len(raw_text)`, the folded words, the first start, the last end and the raw text |
| ForcedAlignment.StepWords | src/helper/forced_alignment.py:114-135 | one turn of the loop on the word list is one fold step |
| ForcedAlignment.ContentCountBound | src/helper/forced_alignment.py:113-135 | no more content words than alignment words |
| ForcedAlignment.FoldedLength | src/helper/forced_alignment.py:113-135 | one output word per content word, never more than the alignment has |
| ForcedAlignment.FoldFromLength | src/helper/forced_alignment.py:113-135 | the loop adds exactly one word per content word still ahead |
| ForcedAlignment.FoldFromKeepsEarlier | src/helper/forced_alignment.py:122-126 | words before the last one built are never changed again |
| ForcedAlignment.FoldFromWellShaped | src/helper/forced_alignment.py:113-135 | every output word is non-empty, has probability 0.99 and ends no earlier than it starts |
| ForcedAlignment.FoldedWellShaped | src/helper/forced_alignment.py:113-135 | the same for the whole alignment |
| ForcedAlignment.PunctuationGlued | src/helper/forced_alignment.py:119-135 | a word followed by a punctuation token becomes one word carrying both, ending at the later of the times |
| ForcedAlignment.StepText | src/helper/forced_alignment.py:114-135 | once a word exists, each step appends exactly the stripped token to the concatenated text |
| ForcedAlignment.FoldFromText | src/helper/forced_alignment.py:113-135 | from then on, the text of the output is the text so far followed by the stripped tokens ahead |
| ForcedAlignment.FirstContent | src/helper/forced_alignment.py:116-122 | the index of the first content word from a position, or the end |
| ForcedAlignment.FoldedText | src/helper/forced_alignment.py:113-135 | the output text is every stripped token from the first content word on: nothing else is lost |
| ForcedAlignment.TextFromFirstContent | src/helper/forced_alignment.py:113-135 | starting at a content word, the output text is every stripped token from there |
| ForcedAlignment.LeadingDropped | src/helper/forced_alignment.py:119-127 | punctuation and blanks before the first content word are swallowed |
| ForcedAlignment.SkipBeforeFirst | src/helper/forced_alignment.py:116-127 | one such token leaves the empty output empty |
| MergeSubwords.Piece | example/POC_translation_and_alignment/attempt_awesome_align.py:11-16 | a "##" token contributes its text after the marker, any other token itself |
| MergeSubwords.Close | example/POC_translation_and_alignment/attempt_awesome_align.py:14-18 | the pending word is added only when it is not empty |
| MergeSubwords.MergeSubwordTokens | example/POC_translation_and_alignment/attempt_awesome_align.py:6-19 | the loop gives the merged words |
| MergeSubwords.MergeFromText | example/POC_translation_and_alignment/attempt_awesome_align.py:10-18 | the words' text is the text so far, the pending word and the pieces of the tokens ahead |
| MergeSubwords.ClosedText | example/POC_translation_and_alignment/attempt_awesome_align.py:17-18 | closing the pending word appends its text |
| MergeSubwords.MergedText | example/POC_translation_and_alignment/attempt_awesome_align.py:6-19 | merging loses no character: the words concatenate to the tokens without their "##" markers |
| MergeSubwords.MergeFromNoEmpty | example/POC_translation_and_alignment/attempt_awesome_align.py:14-18 | no empty word is ever added |
| MergeSubwords.MergeFromCount | example/POC_translation_and_alignment/attempt_awesome_align.py:10-18 | at most one word per remaining token, plus the pending one |
| MergeSubwords.MergedShape | example/POC_translation_and_alignment/attempt_awesome_align.py:6-19 | no empty word, never more words than tokens, and no words from no tokens |
| MergeSubwords.Example | example/POC_translation_and_alignment/attempt_awesome_align.py:6-19 | "play ##ing fine" becomes "playing fine" |
| SegmentInfoParser.ParseSegmentWords | src/helper/segment_info_parser.py:38-53 | `None` gives no words; otherwise the words whose `word` is a string, in order, with their four fields |
| SegmentInfoParser.KeptWordsAppend | src/helper/segment_info_parser.py:43-52 | the filter works piece by piece |
| SegmentInfoParser.KeptWordsSingle | src/helper/segment_info_parser.py:44-52 | a string word gives its dictionary; any other word is skipped |
| SegmentInfoParser.KeptWordsAllText | src/helper/segment_info_parser.py:43-52 | when every word is a string, each gives its own dictionary at the same index |
| SegmentInfoParser.KeptWordsBound | src/helper/segment_info_parser.py:43-52 | no more words come out than went in |
| SegmentInfoParser.ParseTranscriptionSegments | src/helper/segment_info_parser.py:56-77 | `None` fails at `list(segment)`; otherwise one dictionary per segment, in order, with its fields and its parsed words |
| SegmentInfoParser.ParseTranscriptionInfo | src/helper/segment_info_parser.py:18-35 | the four scalar fields are copied, and each options object becomes its field dictionary, or `None` when absent |
| SegmentInfoParser.ParseSegmentsAndInfo | src/helper/segment_info_parser.py:7-15 | the combined dictionary holds every segment parsed and the parsed info |
| SegmentInfoParser.SegmentTexts | src/helper/segment_info_parser.py:86 | the segments' texts, in order |
| SegmentInfoParser.ParseSegmentList | src/helper/segment_info_parser.py:80-111 | the text is the concatenation of the segment texts; each segment keeps its text and times, and each word is renamed field for field, in order |
| SegmentInfoParser.RenamedWords | src/helper/segment_info_parser.py:89-97 | each word renamed at the same index |
| SegmentInfoParser.NonStringWordsDropped | src/helper/test/test_segment_info_parser.py:237-247 | words `None` and `123` are dropped and "test" is kept |

## Findings

| source | as written | input that shows it | evidently intended | confidence | as-written member | corrected member |
|---|---|---|---|---|---|---|
| src/helper/local_agreement.py:25 | the flag is `any(symbol in self.confirmed ...)`, a test of a one-character string against a list of `Word` objects, so it is always False | confirmed words "Hi." and "Bye.", `flush_confirmed(1)`: "Bye." stays confirmed and the flag reads False | the flag says whether a remaining confirmed word holds `.`, `?` or `!` | medium; not executed | LocalAgreement.LocalAgreement.FlushConfirmed, LocalAgreement.FlushFlagScenario | LocalAgreement.LocalAgreement.FlushConfirmedFlagged |

`flush_at_sentence_end` uses the corrected flush. On that path the two
agree: no word after the last sentence end holds a terminator, so both
leave the flag False.

## Left out

- Floating point: samples, times, latencies and thresholds are exact reals. IEEE rounding, Float32 storage, `"{:.6f}"` formatting (src/websocket/stream.py:152-154) and `round(x + 0.49)` (src/websocket/final_context_detector.py:31-33) are not modelled.
- FinalContextDetector.RemoveFirstFinalWords: the cut computed at src/websocket/final_context_detector.py:31-49 is thrown away by the code, so only its one observable effect, the `result_words[-1]` failure on an empty list, is modelled. The debugging prints are left out.
- Whisper, the alignment models, `stable_whisper`, the BERT tokenizer and pydub are foreign libraries. Their results enter as parameters: `Outcome` values, the `whisper` function, the `transcriptionFailed` flag and the segment lists given to the parsers.
- Concurrency: `asyncio.ensure_future` is modelled as a recorded `Request`, not as a task running beside the loop. `Stream.TranscriptionDone` and `WebSocketServer.TranscriptionDone` stand for a completed task and may be interleaved with messages in any order by the caller.
- The transcription results themselves (the JSON of finals and partials sent back by the streaming servers) are not modelled; a request records the two caches it was given.
- StreamDispatcher.Stream.TranscriptionDone: the failure flag stands for the transcription call raising. A failure of the later `websocket.send` also closes the stream in the source, after the counters were updated; that order is not modelled.
- StreamDispatcher.Stream.Echo: a closed or failed connection is modelled as the end of the message sequence. The source's handlers call the non-callable `self.logger(...)` (src/websocket/stream.py:123,127,129), which would raise out of the loop instead.
- Export on "eof" (the WAV crossfade, the JSON file and the uuid name, src/websocket/stream.py:242-279) is left out; the export name is a parameter.
- VoskServer.Step: a config message whose JSON does not parse, or lacks `config.sample_rate`, raises in the source; the model takes the sample rate as a field of the message. Sending the `None` of an empty partial window is modelled as the reply `NoPartial`, not as the exception the websocket library raises.
- ScriptProcessorClient.Accumulator.SendAudio: requires callbacks of at most `targetBufferSize` samples (the script processor delivers 16384). A larger callback would make `set` throw in the source. The `getChannelData(0) ||` fallback is not modelled, because a typed array is always truthy.
- AudioProcessor.AudioProcessor.Process: `inputs` is a sequence of channel lists; `port.postMessage` is the returned message. The sample rate is the worklet's global and is a constructor parameter.
- TextUtil.Lower: characters whose lower case holds no letter a–z (such as Ä or Σ) are kept as they are instead of lowered. `KeepAz` drops both forms, so `Canonical` is exact for every character.
- Worker seats: the Whisper model load inside `StreamTranscriber._load_model` is a parameter (`loadSucceeds`); the logger and `time_it` are left out.
- TranscriptionSettings.Settings.GetAndUpdateSettings: without settings the source returns the defaults dictionary itself, so later changes to it would show through; the model returns the value and does not model that aliasing.
- The configuration (`CONFIG`) is a parameter map. `ModelHandler`, `setup_model` and the model downloads are not part of this model.
- RestRunner: `parse_stable_whisper_result` is folded into the transcription outcome; the random sleep and the run loop's timing, logging and exception text are left out. The file listing order is a parameter sequence. The status record reaches `transcribe` as a map; a raise while reading it, or from the data handler's own updates, is not modelled.
- JSON objects are maps, so key order and the 25-key shape of the literal settings dictionary are not modelled beyond their key sets.
- Dates: `datetime.fromisoformat` is a parameter function from strings to comparable instants; time zones and the format itself are not modelled.
- RestClient: the DOM, `fetch`, promises and the interval timer are modelled by the `Poller` state and the replies given to it. A poll already in flight when `clearInterval` runs is not modelled. Word times are kept as the text JavaScript prints for them; number-to-string conversion is not modelled.
- Files and directories are maps from names to records; reading, writing and deleting are updates of those maps. Errors other than a missing or unreadable record are not modelled.
