# gale8 shipping-forecast pipeline, modelled in Dafny

gale8 records the BBC Radio 4 shipping forecast four times a day and builds a
continuous stream from its archive. The pipeline works in three steps:

- The **transcriber** decodes each recording. It runs a speech recogniser over
  the decoded audio in quarter-second windows, and writes a cue file that holds
  the times at which trigger words were heard ("shipping", "forecast",
  "bulletin", "bbc", "radio"), a transcript and the length.
- The **cataloguer** appends each recording's date and broadcast time to the
  nested `year -> month -> day -> [timing]` catalog.
- The **assembler** starts from the latest catalogued recording and continues
  with random ones. It trims each recording to the window its cues give, fades
  it in and out, and appends it whole until the stream reaches its target size.

A set of maintenance scripts keeps the archive healthy. They rebuild the
catalog, find cue files without keywords, find truncated recordings, move broken
recordings aside and delete recordings.

The modules are:

- `Boundaries`: trim-window selection.
- `Catalog`: the catalog, its lookups and the recording-name patterns.
- `Assemble`: the assembly loop.
- `Detector`: the streaming cue detector. Three identical copies of it exist in
  the repository.
- `Transcribe`: the batch result strings.
- `DetectTool`: the batch detection tool.
- `ShippingScan`: the older single-keyword detector.
- `CatalogEvent`: the cataloguer.
- `BuildCatalog`: rebuilding the catalog.
- `MissingCues`, `ShortRecordings`, `BrokenRecordings` and `DeleteFiles`: the
  maintenance scripts.
- `ObjectKeys`: object-key derivations.
- `PyStr`: the Python string operations the scripts rely on.
- `Bucket`: the storage bucket, as a class holding a set of keys and a request log.

Some Python behaviour needs a modelling choice:

- **Dictionaries.** Python dictionaries keep insertion order. A catalog level is
  therefore an association list, and `random.choice(list(x.keys()))` is an index
  the caller supplies.
- **Recogniser.** The recogniser is an input sequence of windows. Each window has
  its byte length, whether the result was complete, the result string and the
  transcribed text.
- **Numbers.** Byte counts are integers, so cue times are exact rationals.
- **Whitespace.** `strip()` and `split()` remove the characters `str.isspace()` accepts, the Unicode spaces included.
- **End scan.** The end scan of `get_forecast_times` stops at the first
  trigger category present in the cue map, even when that category has no cue
  late enough. So `{"shipping": [40], "bbc": [310]}` with length 360 gives
  `(35, 360)`, not `(35, 315)` (`Boundaries.PresentButEarlyCategoryBlocksLaterOnes`).

## Model

| member | source | states |
|---|---|---|
| Boundaries.GetForecastTimes | assemble/assemble_stream.py:90-119 | The step-by-step computation (start reassigned, category loop with `break`, padding) returns exactly the window `ForecastTimes` defines, which the lemmas below characterise |
| Boundaries.EmptyCuesKeepEverything | assemble/assemble_stream.py:94-119 | With no cues the window is `(0, duration)` for every duration |
| Boundaries.BoundaryScaling | assemble/assemble_stream.py:92-93 | Start boundary is 150 s exactly when the duration exceeds 300 s, else 90 s; end boundary is 300 s exactly when it exceeds 540 s, else 180 s |
| Boundaries.Latest | assemble/assemble_stream.py:97-100 | `sorted(...)[-1]` of a non-empty list is a member that no other member exceeds |
| Boundaries.Earliest | assemble/assemble_stream.py:102-105 | `sorted(...)[0]` of a non-empty list is a member no other member is below |
| Boundaries.ShippingCueSetsStart | assemble/assemble_stream.py:95-107 | The latest non-zero shipping cue at or before the start boundary becomes the start, less 5 s of padding only when it exceeds 5 s |
| Boundaries.ForecastCueFallback | assemble/assemble_stream.py:95-107 | When no shipping cue gives a non-zero start (none in range, or the latest is exactly 0), the earliest forecast cue at or before the boundary is the start |
| Boundaries.NoStartCue | assemble/assemble_stream.py:95-107 | With neither, the start is 0 |
| Boundaries.StartWithinBoundary | assemble/assemble_stream.py:106-107 | With non-negative cues, 0 <= start <= start boundary |
| Boundaries.FirstPresentCategoryDecidesEnd | assemble/assemble_stream.py:108-116 | The first of shipping, bulletin, bbc, radio present in the cue map decides the end: its earliest cue at or after the end boundary, else the duration; later categories are not consulted |
| Boundaries.NoEndCategory | assemble/assemble_stream.py:108-119 | With none of the four categories present the end is the duration |
| Boundaries.EndWithinDuration | assemble/assemble_stream.py:117-119 | When every end-category cue is within the duration, the padded end stays within it and is at least the unpadded end |
| Boundaries.PresentButEarlyCategoryBlocksLaterOnes | assemble/assemble_stream.py:108-119 | `{"shipping":[40],"bbc":[310]}` with length 360 gives `(35, 360)` |
| PyStr.MaxStr | assemble/assemble_stream.py:82 | The last of the sorted keys is a key that no other key exceeds in code-point order |
| Catalog.Keys | assemble/assemble_stream.py:73 | `list(x.keys())` lists every key in insertion order |
| Catalog.Get | catalog/catalog_forecast.py:75-77 | A lookup finds a value exactly for a listed key, and the value is the one stored under it |
| Catalog.GetPut | catalog/catalog_forecast.py:75-77 | Storing under a key changes the lookup of that key only |
| Catalog.KeysPut | catalog/catalog_forecast.py:75-77 | Storing under a new key appends it to the key order; an existing key keeps its place |
| Catalog.LastEntryIsLatest | assemble/assemble_stream.py:81-87 | The last entry has the greatest year, then the greatest month in it, then the greatest day, then that day's list-last timing; there is none exactly when some level on that path is empty |
| Catalog.AppendThenLast | assemble/assemble_stream.py:81-87 | After appending an entry whose year, month and day are the greatest, the last entry is that entry, whatever order its timings are in |
| Catalog.Choice | assemble/assemble_stream.py:73-77 | A choice exists exactly for a non-empty list, is a member of it, and is the element at the index when the index is in range |
| Catalog.ChoiceIsModulo | assemble/assemble_stream.py:73-77 | Any index picks the element at that index modulo the length |
| Catalog.RandomEntryIsCatalogued | assemble/assemble_stream.py:72-78 | A random file's year, month, day and timing are all in the catalog |
| Catalog.EveryCataloguedEntryIsReachable | assemble/assemble_stream.py:72-78 | Every catalogued entry is the random file for some choice of indices |
| Catalog.TimingsAfterAppend | catalog/catalog_forecast.py:75-78 | The append adds the timing at the end of its day's list, keeps duplicates, and leaves every other day unchanged |
| Catalog.AppendCreatesLevels | catalog/catalog_forecast.py:75-78 | The append creates any missing year, month and day level; a new year goes at the end of the key order |
| Catalog.RegexSubject | catalog/catalog_forecast.py:65 | `$` matches at the end of the name or before one final newline |
| Catalog.BroadcastTail | catalog/catalog_forecast.py:65 | A 17-character tail matches exactly when it has 'Z' at position 8 and ends in `mp3`, with any character before `mp3`, and it splits into the four groups |
| Catalog.MatchRecordingName | catalog/catalog_forecast.py:65-70 | A match needs a newline-free subject with a word boundary 17 characters from its end; the groups of 4, 2, 2 and 4 characters, `Z`, any character and `mp3` spell out those last 17 characters |
| Catalog.RecordingNameRoundTrip | catalog/catalog_forecast.py:65-70 | The name rendered for an entry whose first character is a word character matches back to that entry |
| Catalog.MatchArchiveKey | tools/build-catalog.py:9 | A match needs a newline-free key whose last 25 characters are `archive/` then the groups of 4, 2, 2 and 4 characters, `Z`, any character and `mp3` |
| Catalog.ArchiveKeyRoundTrip | tools/build-catalog.py:9 | `archive/` followed by an entry's rendered name matches back to that entry |
| Catalog.CatalogObjectDoesNotMatch | tools/build-catalog.py:19-21 | `archive/catalog.json` does not match the recording pattern |
| Assemble.FadeArgs | assemble/assemble_stream.py:122-125 | The fade-out starts `fade_secs` before the end of the trimmed segment |
| Assemble.HandleEvent | assemble/assemble_stream.py:150-171 | The accumulation loop produces exactly the assembly `Assembled` defines |
| Assemble.UploadedStreamIsWholeSegments | assemble/assemble_stream.py:155-169 | The uploaded stream is the concatenation of whole segments: first the latest file, then files from successive random choices. It reaches the target, and no shorter prefix of the chosen files did |
| Assemble.AssembledUploads | assemble/assemble_stream.py:155-171 | The assembly is uploaded when there is a latest recording, every supplied pick resolves, and the picks times a lower bound on segment size cover the target (each iteration, the last included, makes one random pick) |
| Assemble.EmptyCatalogFails | assemble/assemble_stream.py:157 | An empty catalog fails before anything is uploaded |
| Assemble.ChosenFilesAreCatalogued | assemble/assemble_stream.py:157-169 | Every file in the stream names a catalogued entry |
| Assemble.SixtySecondSegmentsFor125Seconds | assemble/assemble_stream.py:155-166 | With 60-second segments, `length` 125 and three resolving picks, the stream is uploaded and holds exactly three whole segments |
| Detector.DetectWindows | transcribe/transcribe_forecast.py:42-80 | The window loop returns exactly the detection record `Detect` defines, which the lemmas below characterise |
| Detector.ScanTriggers | transcribe/transcribe_forecast.py:62-68 | The inner trigger loop records exactly the cues and seen set `Scan` defines for one window |
| Detector.Processed | transcribe/transcribe_forecast.py:49-52 | The loop processes the windows up to, and not including, the first empty read |
| Detector.ScanEffect | transcribe/transcribe_forecast.py:62-68 | A trigger not yet seen in the utterance and found in the result gets a cue at the window's start offset less its latency, and is marked seen; other triggers are unchanged |
| Detector.StepEffect | transcribe/transcribe_forecast.py:53-72 | One window advances the offset by its length, adds a transcript line only for a complete result with text, and clears `seen` after a complete window |
| Detector.FullWindowIsQuarterSecond | transcribe/transcribe_forecast.py:9-11 | Each full read of 8000 bytes advances the offset by 0.25 s of 32000-byte-per-second audio |
| Detector.DetectionIsOrdered | transcribe/transcribe_forecast.py:50-71 | Each trigger's cue list is strictly increasing, and transcript line times are non-decreasing |
| Detector.CueKeysAreHeardTriggers | transcribe/transcribe_forecast.py:62-65 | A cue key is present exactly when it is a trigger that some processed window's result mentions |
| Detector.AtMostOncePerUtterance | transcribe/transcribe_forecast.py:63-72 | Between complete results each trigger gains at most one cue, and none once it has been seen |
| Detector.TranscriptIsSpokenText | transcribe/transcribe_forecast.py:54-59 | The transcript's texts are the non-empty texts of the complete windows, in order |
| Detector.LengthIsTotalBytes | transcribe/transcribe_forecast.py:79 | The length is the total bytes read divided by 32000 |
| Detector.ShippingHeardTwice | transcribe_forecast.py:61-66 | "shipping" heard after 40 and after 160 quarter-second windows is cued at 9.375 s and 39.375 s |
| Transcribe.Shown | transcribe/transcribe_forecast.py:143 | `map(str, timings)` formats each time, in order |
| Transcribe.OutcomeFields | transcribe/transcribe_forecast.py:134-147 | A task succeeds exactly when its recording was decoded, and its text splits on commas into the shipping cues, then the forecast cues, then the length. A failure carries the exception's message |
| Transcribe.HandleBatchEvent | transcribe/transcribe_forecast.py:129-153 | There is one result per task, in task order, each that task's outcome |
| DetectTool.Worker.constructor | tools/detection/detect_forecast.py:18-19 | A worker starts uninitialised with an empty output path |
| DetectTool.Worker.GetModel | tools/detection/detect_forecast.py:21-28 | The first call initialises the worker and keeps the output path; a later call raises and changes nothing |
| DetectTool.Worker.Detect | tools/detection/detect_forecast.py:30-82 | A missing file returns `("", [])`. Otherwise the result is the file name with the detector's cues, and the record written under the output path |
| DetectTool.InitialiseTwice | tools/detection/detect_forecast.py:24-25 | A second `get_model` raises and keeps the first output path |
| DetectTool.RecordPathIgnoresDirectory | tools/detection/detect_forecast.py:72-73 | The record's path depends only on the file's base name |
| ShippingScan.DetectShipping | detection/detect_forecast.py:25-45 | The loop returns exactly the detections `FoundAsWritten` defines: byte offsets before the window divided by 16000 |
| ShippingScan.FoundIncreasing | detection/detect_forecast.py:39-45 | Detections are strictly increasing |
| ShippingScan.FoundWithinAudio | detection/detect_forecast.py:39-45 | Every detection lies between the starting offset and the end of the decoded audio |
| ShippingScan.AtMostOncePerUtterance | detection/detect_forecast.py:39-44 | Between complete results there is at most one detection, and none once seen |
| ShippingScan.AsWrittenDoublesSeconds | detection/detect_forecast.py:31-40 | Dividing by 16000 gives exactly twice the time in seconds of 32000-byte audio |
| ShippingScan.OneSecondReportedAsTwo | detection/detect_forecast.py:40 | "shipping" heard one second in is reported as 2.0 |
| ShippingScan.FoundSecondsWithinAudio | detection/detect_forecast.py:40 | Divided by 32000, detections are strictly increasing seconds within the audio's length |
| CatalogEvent.HandleEvent | catalog/catalog_forecast.py:47-80 | The guard chain returns exactly the outcome `Catalogue` defines |
| CatalogEvent.UploadOnlyAfterAppend | catalog/catalog_forecast.py:56-80 | An upload happens exactly when every guard passes. What is uploaded is the old catalog with the timing appended to its day, and every other day is unchanged |
| CatalogEvent.NoCatalogNoUpload | catalog/catalog_forecast.py:56-59 | A missing or empty catalog aborts whatever the recording |
| CatalogEvent.StartCueGuard | catalog/catalog_forecast.py:61-63 | Only a non-empty cue map with neither "shipping" nor "forecast" blocks the entry; `null` and empty maps do not |
| CatalogEvent.WellFormedNameIsCatalogued | catalog/catalog_forecast.py:65-78 | A matching name at a broadcast time is appended under its own groups and uploaded |
| BuildCatalog.ReadExclude | tools/build-catalog.py:12-16 | The reading loop builds the set of stripped lines `ExcludeSet` defines |
| BuildCatalog.BuildFromListing | tools/build-catalog.py:10-34 | The listing loop builds, from an empty catalog, the catalog and diagnostics `Build` and `Notes` define |
| BuildCatalog.BuiltDaysAreAcceptedKeys | tools/build-catalog.py:18-34 | Each day's list holds exactly the timings of the accepted keys for that day, in listing order, duplicates kept |
| BuildCatalog.ClassifyCases | tools/build-catalog.py:19-30 | A key is accepted exactly when it matches, is not excluded and has a broadcast time. `archive/catalog.json` is skipped without a note |
| BuildCatalog.ExcludedKeyIsSkipped | tools/build-catalog.py:12-26 | A key the exclude file lists, with or without surrounding whitespace, is skipped |
| ShortRecordings.ExpectedLength | tools/find-short-recordings.py:5-25 | The expected length is 0, 360 or 720, and non-zero only for a broadcast time at `[-8:-4]` |
| ShortRecordings.ShortNameHasNoExpectedLength | tools/find-short-recordings.py:16-23 | Names shorter than 8 characters have no expected length |
| ShortRecordings.ExpectedLengthOfRecording | tools/find-short-recordings.py:16-23 | A catalogued recording's name gets 720 for 0048 and 0520, 360 for 1754 and 1201, and 0 otherwise |
| ShortRecordings.FindShortRecordings | tools/find-short-recordings.py:35-45 | The listing loop prints exactly the report `ShortReport` defines |
| ShortRecordings.ReportedExactlyTheShort | tools/find-short-recordings.py:36-45 | A line is printed exactly for a `.json` cue file with a length at most half its expected non-zero length, under the name with `cues/` and `.json` removed |
| ShortRecordings.HalfLengthRecordingIsReported | tools/find-short-recordings.py:40-45 | A six-minute recording that measured at most three minutes is reported under its own name |
| MissingCues.AnyKeyword | tools/find-missing-cues.py:11-14 | The early-return scan is true exactly when some keyword is a key of the cue map |
| MissingCues.CheckForKeywords | tools/find-missing-cues.py:5-14 | False without a `cues` field; otherwise true exactly when "shipping", "forecast", "bbc" or "radio" is a key |
| MissingCues.KeyPresenceAloneCounts | tools/find-missing-cues.py:7-14 | Only "bulletin" fails; a keyword with no cue times passes |
| MissingCues.FindMissingCues | tools/find-missing-cues.py:24-31 | The listing loop prints exactly the report `MissingReport` defines |
| MissingCues.ReportedExactlyTheMissing | tools/find-missing-cues.py:24-31 | A name is printed exactly for a recent `.json` cue file of that name that fails the keyword check |
| MissingCues.MissingCueFileNamesItsRecording | tools/find-missing-cues.py:29-30 | A recording's cue file is reported under the recording's name |
| ObjectKeys.ReportedNameOfCueKey | tools/find-short-recordings.py:40-41 | Removing `.json` and `cues/` from a recording's cue key gives back the recording's name |
| ObjectKeys.BrokenCueKeyDropsExtension | tools/move-broken-recordings.py:21 | The broken cue key of `X.mp3` is `broken/X.json` |
| ObjectKeys.KeysAreDistinct | tools/move-broken-recordings.py:18-20 | Distinct names have distinct archive, cue and broken keys |
| PyStr.StripIsTrimmedSlice | tools/move-broken-recordings.py:17 | `strip()` returns a contiguous slice with no whitespace at either end, and all it cuts off is whitespace, whitespace being every character `str.isspace()` accepts (ASCII and Unicode) |
| PyStr.SplitTwoWords | tools/move-broken-recordings.py:17 | Two runs of non-whitespace characters (in the `str.isspace()` sense) joined by a space strip to themselves and split into those two words |
| PyStr.StripRemovesNonAsciiSpace | tools/move-broken-recordings.py:17 | `strip()` removes the separator U+001C and the no-break space U+00A0 as whitespace |
| BrokenRecordings.ReportLineParses | tools/move-broken-recordings.py:17 | A report line `name length` parses to its name |
| BrokenRecordings.Parsed | tools/move-broken-recordings.py:16-17 | Each line is parsed in order |
| BrokenRecordings.Move | tools/move-broken-recordings.py:6-9 | A move copies and then deletes. It succeeds exactly when the source exists; a failed copy sends no delete |
| BrokenRecordings.MoveLine | tools/move-broken-recordings.py:26-36 | The recording is moved before its cue file, and the cue file is not attempted once the recording's move fails |
| BrokenRecordings.HandleLine | tools/move-broken-recordings.py:23-36 | One line changes the bucket, the request log and the result exactly as `LineStep` defines; a dry run sends nothing |
| BrokenRecordings.MoveParsed | tools/move-broken-recordings.py:16-36 | The loop over parsed lines gives the requests, results and final objects `MoveNames` defines, stopping at the first line that does not parse |
| BrokenRecordings.MoveBrokenRecordings | tools/move-broken-recordings.py:11-36 | The loop's requests, results and final objects are exactly those `MoveAll` defines |
| BrokenRecordings.DryRunChangesNothing | tools/move-broken-recordings.py:23-24 | A dry run sends no request and leaves every key in place |
| BrokenRecordings.DryRunSendsNothing | tools/move-broken-recordings.py:16-24 | In a dry run each handled line reports the name it would move, in order, and nothing is sent |
| BrokenRecordings.MoveAllStopsAtMalformedLine | tools/move-broken-recordings.py:16-17 | A line without exactly two fields stops the script: the run is the run over the lines before it, marked stopped, with one result per earlier line and no request for later lines |
| BrokenRecordings.AllLinesHandled | tools/move-broken-recordings.py:16-36 | When every line parses, the script is not stopped and produces one result per line |
| DeleteFiles.Names | tools/delete-files.py:23 | There are at most as many names as lines, and when no line is empty (as with lines read from standard input) name i is line i stripped |
| DeleteFiles.DeleteAll | tools/delete-files.py:4-19 | Sends exactly the deletions `Deletions` defines and removes exactly those keys |
| DeleteFiles.DeleteFromInput | tools/delete-files.py:21-24 | The script sends the deletions for the names read from standard input and removes exactly those keys |
| DeleteFiles.DeletionOrder | tools/delete-files.py:10-19 | Name i's deletions are requests 2i and 2i+1: the recording before the cue key, names in input order |
| DeleteFiles.BlankLineTargetsPrefixes | tools/delete-files.py:12-23 | A line of only whitespace gives the empty name, whose deletions target `archive/` and `cues/` |
| DeleteFiles.AsWrittenMissesCueFile | tools/delete-files.py:17 | For `X.mp3` the script deletes `cues/X.json`, which is not the recording's cue file |
| DeleteFiles.CueFileKey | tools/delete-files.py:17 | The corrected key starts `cues/`, ends `.json`, and the other tools read the recording's name back from it |

## Left out

- Cloud and process I/O is not modelled. This covers S3 downloads, uploads, copies and deletes, Lambda invocation, `set_next_launch`, environment checks, temporary directories and JSON file writes. The storage bucket is the `Bucket.Store` class; downloaded data are parameters.
- ffmpeg decoding and encoding are not modelled. A decoded recording is its sequence of windows; a trimmed and faded segment is a byte string given by `Assemble.Sources`.
- The vosk recogniser is not modelled. Each window's result string and transcribed text are inputs, and the JSON parsing of a result is not modelled.
- Detector.DetectWindows: cue times, line times and the length are exact rationals; `round(..., 3)` is not modelled.
- Transcribe.OutcomeFields: `str(float)` is an abstract `show` function, assumed to produce no comma.
- ShippingScan.DetectShipping: the printed rounding to 2 decimals, the per-utterance prints and the elapsed time are not modelled.
- Assemble.HandleEvent: the loop is bounded by the sequence of random choices supplied. The source can loop for ever when segments are empty; here that ends in `OutOfPicks`. A failing ffmpeg process returns whatever output it produced, which the segment function covers.
- Catalog.MatchRecordingName: `\b` is taken over ASCII word characters; Python's Unicode word classes are not modelled.
- CatalogEvent.HandleEvent: the `"cues" not in event` branch at catalog/catalog_forecast.py:51 uses undefined names, so it raises; it is modelled as a crash outcome with no upload.
- The `raise Error` at transcribe/transcribe_forecast.py:34 is itself a NameError; it is a raised exception like any other in `Transcribe`.
- The `multiprocessing.Pool` in tools/detection/detect_forecast.py:89 is concurrency and is not modelled; each pool worker is one `DetectTool.Worker`.
- Clock, sleep and date code is not modelled. This covers download_forecast.py, tools/play_broadcast.py, and the `start_date` constant of the maintenance scripts, which is a parameter.
- MissingCues.CheckForKeywords: a `cues` field that is not a map (for example JSON `null`) raises in the source; the model takes a present field to be a map. Malformed JSON is not modelled.
- Listing walks that only fix metadata or audio features are not modelled: tools/fix-content-type.py, tools/fix-perms.py, tools/list-files.py, tools/detection/dump_mfcc.py and tools/find-empty-cue-files.py.
- BrokenRecordings.MoveBrokenRecordings: only a missing key is modelled as a storage error; other client errors and exceptions are not.

## Findings

| source | as written | input that shows it | evidently intended | confidence | as-written member | corrected member |
|---|---|---|---|---|---|---|
| tools/delete-files.py:17 | the cue key is `cues/` plus the name with `.mp3` replaced by `.json` | the name `20240101Z0048.mp3` deletes `cues/20240101Z0048.json`, but its cue file is `cues/20240101Z0048.mp3.json` (transcribe/transcribe_forecast.py:107-111), so the cue file is left behind | delete `cues/{name}.json`, the key the transcriber uploads | medium; not executed | DeleteFiles.AsWrittenMissesCueFile | DeleteFiles.CueFileKey |
| detection/detect_forecast.py:40 | the byte offset is divided by `sample_rate` (16000) | "shipping" heard in the window that starts 32000 bytes (one second) into 16 kHz 16-bit mono audio is reported at 2.0 | divide by the 32000 bytes per second of that audio, as the later detector does | medium; not executed | ShippingScan.OneSecondReportedAsTwo | ShippingScan.FoundSecondsWithinAudio |
