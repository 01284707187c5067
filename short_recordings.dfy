/**
 * Finding truncated recordings (tools/find-short-recordings.py): a
 * recording's expected length follows from the broadcast time in its name,
 * and a cue file whose measured length is at most half of that is reported.
 */
module ShortRecordings {
  import opened Wrappers
  import opened PyStr
  import opened Catalog
  import opened ObjectKeys

  /** The broadcast times of the twelve-minute bulletins. */
  const LongTimes: seq<string> := ["0048", "0520"]

  /** The broadcast times of the six-minute bulletins. */
  const ShortTimes: seq<string> := ["1754", "1201"]

  /** `get_expected_length`: seconds expected for the recording `filename`,
      from the four characters `[-8:-4]` before its extension; 0 for any
      other time. */
  function ExpectedLength(filename: string): (seconds: nat)
    ensures seconds == 0 || seconds == 360 || seconds == 720
    ensures seconds > 0 ==> PySlice(filename, -8, -4) in BroadcastTimes
  {
    var hhmm := PySlice(filename, -8, -4);
    if hhmm == "0048" || hhmm == "0520" then 720
    else if hhmm == "1754" || hhmm == "1201" then 360
    else 0
  }

  /** A name shorter than eight characters slices to fewer than four, so
      has no expected length. */
  lemma ShortNameHasNoExpectedLength(filename: string)
    requires |filename| < 8
    ensures ExpectedLength(filename) == 0
  {
    assert |PySlice(filename, -8, -4)| < 4;
  }

  /** For a recording named as the catalog names it, the expected length is
      decided by its timing alone: twelve minutes for the night broadcasts,
      six for the day ones. */
  lemma ExpectedLengthOfRecording(l: Location)
    requires |l.timing| == 4
    ensures ExpectedLength(FileName(l)) ==
              if l.timing in LongTimes then 720 else if l.timing in ShortTimes then 360 else 0
  {
    var f := FileName(l);
    var n := |f|;
    assert f == (l.year + l.month + l.day + "Z") + l.timing + ".mp3";
    assert PySlice(f, -8, -4) == f[n - 8..n - 4];
    assert f[n - 8..n - 4] == l.timing;
  }

  /** `expected_length > 0 and length <= expected_length / 2`. */
  predicate TooShort(length: real, expected: nat) {
    expected > 0 && length <= expected as real / 2.0
  }

  /** A listed object is reported when its key ends in `.json`, its content
      has a `length`, and that length is too short for the recording's name. */
  predicate Reported(obj: Listed) {
    EndsWith(obj.key, ".json") && obj.content.length.Some?
    && TooShort(obj.content.length.value, ExpectedLength(ReportedName(obj.key)))
  }

  /** The `(name, length)` lines printed for `objects`, in listing order. */
  function ShortReport(objects: seq<Listed>): seq<(string, real)>
    decreases |objects|
  {
    if objects == [] then []
    else
      var last := objects[|objects| - 1];
      ShortReport(objects[..|objects| - 1])
        + if Reported(last) then [Line(last)] else []
  }

  /** `main`'s loop over the listing. */
  method FindShortRecordings(objects: seq<Listed>) returns (report: seq<(string, real)>)
    ensures report == ShortReport(objects)
  {
    report := [];
    for i := 0 to |objects|
      invariant report == ShortReport(objects[..i])
    {
      assert objects[..i + 1][..i] == objects[..i];
      var obj := objects[i];
      if EndsWith(obj.key, ".json") && obj.content.length.Some? {
        var length := obj.content.length.value;
        var filename := ReportedName(obj.key);
        var expected := ExpectedLength(filename);
        if expected > 0 && length <= expected as real / 2.0 {
          report := report + [(filename, length)];
        }
      }
    }
    assert objects[..|objects|] == objects;
  }

  /** The line printed for a reported cue file. */
  function Line(obj: Listed): (string, real)
    requires obj.content.length.Some?
  {
    (ReportedName(obj.key), obj.content.length.value)
  }

  /** A line is printed exactly for each listed cue file with a length of at
      most half its recording's expected length, named after the recording. */
  lemma ReportedExactlyTheShort(objects: seq<Listed>, entry: (string, real))
    ensures entry in ShortReport(objects) <==>
              exists i :: 0 <= i < |objects| && Reported(objects[i]) && entry == Line(objects[i])
  {
    if entry in ShortReport(objects) {
      var i := ReportedLineIsShort(objects, entry);
    }
    if exists i :: 0 <= i < |objects| && Reported(objects[i]) && entry == Line(objects[i]) {
      var i :| 0 <= i < |objects| && Reported(objects[i]) && entry == Line(objects[i]);
      ShortIsReported(objects, i);
    }
  }

  /** Every printed line comes from a reported cue file. */
  lemma {:induction false} ReportedLineIsShort(objects: seq<Listed>, entry: (string, real)) returns (i: nat)
    requires entry in ShortReport(objects)
    ensures i < |objects| && Reported(objects[i]) && entry == Line(objects[i])
    decreases |objects|
  {
    var init := objects[..|objects| - 1];
    var last := objects[|objects| - 1];
    var tail := if Reported(last) then [Line(last)] else [];
    assert ShortReport(objects) == ShortReport(init) + tail;
    if entry in ShortReport(init) {
      i := ReportedLineIsShort(init, entry);
      assert objects[i] == init[i];
    } else {
      i := |objects| - 1;
    }
  }

  /** Every reported cue file has its line printed. */
  lemma {:induction false} ShortIsReported(objects: seq<Listed>, i: nat)
    requires i < |objects| && Reported(objects[i])
    ensures Line(objects[i]) in ShortReport(objects)
    decreases |objects|
  {
    var init := objects[..|objects| - 1];
    var last := objects[|objects| - 1];
    var tail := if Reported(last) then [Line(last)] else [];
    assert ShortReport(objects) == ShortReport(init) + tail;
    if i < |init| {
      assert init[i] == objects[i];
      ShortIsReported(init, i);
    }
  }

  /** The cue file of a catalogued six-minute recording that measured three
      minutes or less is reported under the recording's name. */
  lemma HalfLengthRecordingIsReported(l: Location, modified: int, cues: Option<Boundaries.CueMap>, length: real)
    requires |l.timing| == 4 && l.timing in ShortTimes && length <= 180.0
    ensures ShortReport([Listed(CueKey(FileName(l)), modified, CueFile(cues, Some(length)))]) == [(FileName(l), length)]
  {
    ExpectedLengthOfRecording(l);
    ReportedNameOfCueKey(FileName(l));
    var key := CueKey(FileName(l));
    assert key[|key| - 5..] == ".json";
  }
}
