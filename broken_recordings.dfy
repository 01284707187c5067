/**
 * Moving broken recordings aside (tools/move-broken-recordings.py): each
 * input line names a recording and its length; the recording and its cue
 * file are each copied under `broken/` and then deleted, recording first.
 */
module BrokenRecordings {
  import opened Wrappers
  import opened PyStr
  import opened ObjectKeys
  import opened Bucket

  /** `filename, length = line.strip().split()`: the name, or `None` when the
      line does not hold exactly two fields and the unpacking raises. */
  function ParseLine(line: string): Option<string> {
    var fields := Split(Strip(line));
    if |fields| == 2 then Some(fields[0]) else None
  }

  /** A line of the short-recordings report, the name and the printed
      length separated by a space, parses back to the recording's name. */
  lemma ReportLineParses(name: string, shown: string)
    requires IsWord(name) && IsWord(shown)
    ensures ParseLine(name + " " + shown) == Some(name)
  {
    SplitTwoWords(name, shown);
  }

  datatype LineResult = Moved(name: string) | Failed(name: string) | WouldMove(name: string)

  /** What the tool leaves behind: the bucket's keys, the requests sent, one
      result per line handled, and whether a malformed line stopped it. */
  datatype Run = Run(objects: set<string>, requests: seq<Request>, results: seq<LineResult>, stopped: bool)

  /** `move_file`: the keys after copying `src` to `dst` and deleting `src`,
      or `None` when the copy fails. */
  function MoveFile(objects: set<string>, src: string, dst: string): Option<set<string>> {
    if src in objects then Some((objects + {dst}) - {src}) else None
  }

  function MoveRequests(objects: set<string>, src: string, dst: string): seq<Request> {
    if src in objects then [Request.Copy(src, dst), Request.Delete(src)] else [Request.Copy(src, dst)]
  }

  /** One recording, outside a dry run: the recording is moved first, and
      the cue file only if that succeeded. */
  function MoveRecording(objects: set<string>, name: string): (set<string>, seq<Request>, LineResult) {
    match MoveFile(objects, ArchiveKey(name), BrokenKey(name))
    case None => (objects, MoveRequests(objects, ArchiveKey(name), BrokenKey(name)), Failed(name))
    case Some(objects1) =>
      var first := MoveRequests(objects, ArchiveKey(name), BrokenKey(name));
      match MoveFile(objects1, CueKey(name), BrokenCueKey(name))
      case None => (objects1, first + MoveRequests(objects1, CueKey(name), BrokenCueKey(name)), Failed(name))
      case Some(objects2) => (objects2, first + MoveRequests(objects1, CueKey(name), BrokenCueKey(name)), Moved(name))
  }

  /** A finished run that has already sent `sent` and produced `results`
      before continuing as `rest`. */
  function After(sent: seq<Request>, results: seq<LineResult>, rest: Run): Run {
    Run(rest.objects, sent + rest.requests, results + rest.results, rest.stopped)
  }

  /** Every line of the input, parsed. */
  function Parsed(lines: seq<string>): (names: seq<Option<string>>)
    ensures |names| == |lines|
    ensures forall i :: 0 <= i < |lines| ==> names[i] == ParseLine(lines[i])
  {
    if lines == [] then [] else [ParseLine(lines[0])] + Parsed(lines[1..])
  }

  /** One parsed line: `None` for a malformed line, otherwise the keys after
      it, the requests it sends and its result. */
  function LineStep(objects: set<string>, name: Option<string>, dryRun: bool): Option<(set<string>, seq<Request>, LineResult)> {
    match name
    case None => None
    case Some(name) =>
      if dryRun then Some((objects, [], WouldMove(name))) else Some(MoveRecording(objects, name))
  }

  /** The tool over the parsed lines, from the bucket's keys `objects`. */
  function MoveNames(objects: set<string>, names: seq<Option<string>>, dryRun: bool): Run
    decreases |names|
  {
    if names == [] then Run(objects, [], [], false)
    else match LineStep(objects, names[0], dryRun)
      case None => Run(objects, [], [], true)
      case Some((objects1, requests, result)) => After(requests, [result], MoveNames(objects1, names[1..], dryRun))
  }

  /** The tool over its input, from the bucket's keys `objects`. */
  function MoveAll(objects: set<string>, lines: seq<string>, dryRun: bool): Run {
    MoveNames(objects, Parsed(lines), dryRun)
  }

  /** A dry run sends nothing and leaves the bucket as it was; each line it
      handles reports the name it would move. */
  lemma {:induction false} DryRunSendsNothing(objects: set<string>, names: seq<Option<string>>)
    ensures var r := MoveNames(objects, names, true);
            && r.requests == [] && r.objects == objects && |r.results| <= |names|
            && forall i :: 0 <= i < |r.results| ==> r.results[i].WouldMove? && names[i] == Some(r.results[i].name)
    decreases |names|
  {
    if names != [] && names[0].Some? {
      var rest := MoveNames(objects, names[1..], true);
      DryRunSendsNothing(objects, names[1..]);
      var r := MoveNames(objects, names, true);
      assert r == After([], [WouldMove(names[0].value)], rest);
      assert r.requests == rest.requests;
      forall i | 0 <= i < |r.results|
        ensures r.results[i].WouldMove? && names[i] == Some(r.results[i].name)
      {
        if i > 0 {
          assert r.results[i] == rest.results[i - 1] && names[i] == names[1..][i - 1];
        }
      }
    }
  }

  /** The first line that does not parse stops the tool: the run is the run
      over the lines before it, marked stopped, so nothing is sent for that
      line or any after it. */
  lemma {:induction false} MalformedLineStops(objects: set<string>, names: seq<Option<string>>, k: nat, dryRun: bool)
    requires k < |names| && names[k].None?
    requires forall j :: 0 <= j < k ==> names[j].Some?
    ensures MoveNames(objects, names, dryRun) == MoveNames(objects, names[..k], dryRun).(stopped := true)
    decreases k
  {
    if k == 0 {
      assert names[..0] == [];
    } else {
      var (objects1, requests, result) := LineStep(objects, names[0], dryRun).value;
      assert names[..k][0] == names[0] && names[..k][1..] == names[1..][..k - 1];
      MalformedLineStops(objects1, names[1..], k - 1, dryRun);
    }
  }

  /** When every line parses the tool is not stopped and handles them all. */
  lemma {:induction false} AllLinesHandled(objects: set<string>, names: seq<Option<string>>, dryRun: bool)
    requires forall j :: 0 <= j < |names| ==> names[j].Some?
    ensures var r := MoveNames(objects, names, dryRun);
            !r.stopped && |r.results| == |names|
    decreases |names|
  {
    if names != [] {
      var (objects1, requests, result) := LineStep(objects, names[0], dryRun).value;
      AllLinesHandled(objects1, names[1..], dryRun);
    }
  }

  /** The script over its input: a line without exactly two fields stops it,
      after handling the lines before it and none after; a dry run sends
      nothing and leaves the bucket unchanged. */
  lemma MoveAllStopsAtMalformedLine(objects: set<string>, lines: seq<string>, k: nat, dryRun: bool)
    requires k < |lines| && ParseLine(lines[k]).None?
    requires forall j :: 0 <= j < k ==> ParseLine(lines[j]).Some?
    ensures var r := MoveAll(objects, lines, dryRun);
            && r.stopped && |r.results| == k
            && r == MoveAll(objects, lines[..k], dryRun).(stopped := true)
  {
    var names := Parsed(lines);
    MalformedLineStops(objects, names, k, dryRun);
    assert names[..k] == Parsed(lines[..k]);
    AllLinesHandled(objects, names[..k], dryRun);
  }

  /** A dry run over the input sends nothing and changes no key. */
  lemma DryRunChangesNothing(objects: set<string>, lines: seq<string>)
    ensures MoveAll(objects, lines, true).requests == []
    ensures MoveAll(objects, lines, true).objects == objects
  {
    DryRunSendsNothing(objects, Parsed(lines));
  }

  /** `move_file` on the bucket. */
  method Move(store: Store, src: string, dst: string) returns (ok: bool)
    modifies store
    ensures ok <==> src in old(store.objects)
    ensures ok ==> store.objects == MoveFile(old(store.objects), src, dst).value
    ensures !ok ==> store.objects == old(store.objects)
    ensures store.log == old(store.log) + MoveRequests(old(store.objects), src, dst)
  {
    ok := store.Copy(src, dst);
    if ok {
      store.Delete(src);
    }
  }

  /** The `try` block for one recording. */
  method MoveLine(store: Store, name: string) returns (result: LineResult)
    modifies store
    ensures var (objects, requests, r) := MoveRecording(old(store.objects), name);
            store.objects == objects && store.log == old(store.log) + requests && result == r
  {
    var ok := Move(store, ArchiveKey(name), BrokenKey(name));
    if ok {
      ok := Move(store, CueKey(name), BrokenCueKey(name));
      result := if ok then Moved(name) else Failed(name);
    } else {
      result := Failed(name);
    }
  }

  /** The body of `main`'s loop for a line naming `name`: only a message in
      a dry run, otherwise the `try` block. */
  method HandleLine(store: Store, name: string, dryRun: bool) returns (result: LineResult)
    modifies store
    ensures var step := LineStep(old(store.objects), Some(name), dryRun).value;
            store.objects == step.0 && store.log == old(store.log) + step.1 && result == step.2
  {
    if dryRun {
      result := WouldMove(name);
      assert store.log == store.log + [];
    } else {
      result := MoveLine(store, name);
    }
  }

  lemma AfterAfter(sent: seq<Request>, results: seq<LineResult>, requests: seq<Request>, result: seq<LineResult>, rest: Run)
    ensures After(sent, results, After(requests, result, rest)) == After(sent + requests, results + result, rest)
  {
    assert sent + (requests + rest.requests) == (sent + requests) + rest.requests;
    assert results + (result + rest.results) == (results + result) + rest.results;
  }

  /** The run over `lines[i..]` continues with the run after line `i`. */
  lemma MoveAllStep(objects: set<string>, lines: seq<Option<string>>, i: nat, dryRun: bool, sent: seq<Request>, results: seq<LineResult>)
    requires i < |lines|
    ensures LineStep(objects, lines[i], dryRun).None? ==>
              After(sent, results, MoveNames(objects, lines[i..], dryRun)) == After(sent, results, Run(objects, [], [], true))
    ensures LineStep(objects, lines[i], dryRun).Some? ==>
              var step := LineStep(objects, lines[i], dryRun).value;
              After(sent, results, MoveNames(objects, lines[i..], dryRun))
              == After(sent + step.1, results + [step.2], MoveNames(step.0, lines[i + 1..], dryRun))
  {
    assert lines[i..][0] == lines[i] && lines[i..][1..] == lines[i + 1..];
    match LineStep(objects, lines[i], dryRun)
    case None =>
    case Some((objects1, requests, result)) =>
      AfterAfter(sent, results, requests, [result], MoveNames(objects1, lines[i + 1..], dryRun));
  }

  /** The run over no more lines. */
  lemma MoveAllEnd(objects: set<string>, lines: seq<Option<string>>, dryRun: bool, sent: seq<Request>, results: seq<LineResult>)
    ensures After(sent, results, MoveNames(objects, lines[|lines|..], dryRun)) == Run(objects, sent, results, false)
  {
    assert lines[|lines|..] == [];
    assert sent + [] == sent && results + [] == results;
  }

  /** `main`: the lines of standard input, in order. */
  method MoveBrokenRecordings(store: Store, lines: seq<string>, dryRun: bool) returns (results: seq<LineResult>, stopped: bool)
    modifies store
    ensures var r := MoveAll(old(store.objects), lines, dryRun);
            store.objects == r.objects && store.log == old(store.log) + r.requests &&
            results == r.results && stopped == r.stopped
  {
    var names := Parsed(lines);
    results, stopped := MoveParsed(store, names, dryRun);
  }

  /** `main`'s loop over the parsed lines: a line that does not parse stops it. */
  method MoveParsed(store: Store, names: seq<Option<string>>, dryRun: bool) returns (results: seq<LineResult>, stopped: bool)
    modifies store
    ensures var r := MoveNames(old(store.objects), names, dryRun);
            store.objects == r.objects && store.log == old(store.log) + r.requests &&
            results == r.results && stopped == r.stopped
  {
    results := [];
    stopped := false;
    ghost var whole := MoveNames(store.objects, names, dryRun);
    ghost var log0 := store.log;
    ghost var sent: seq<Request> := [];
    var i := 0;
    assert names[0..] == names;
    AfterEmpty(MoveNames(store.objects, names, dryRun));
    while i < |names|
      invariant i <= |names|
      invariant store.log == log0 + sent
      invariant whole == After(sent, results, MoveNames(store.objects, names[i..], dryRun))
    {
      ghost var objects := store.objects;
      MoveAllStep(objects, names, i, dryRun, sent, results);
      var name := names[i];
      if name.None? {
        stopped := true;
        return;
      }
      assert LineStep(objects, name, dryRun).Some?;
      ghost var step := LineStep(objects, name, dryRun).value;
      assert whole == After(sent + step.1, results + [step.2], MoveNames(step.0, names[i + 1..], dryRun));
      var result := HandleLine(store, name.value, dryRun);
      assert store.objects == step.0 && result == step.2;
      sent := sent + step.1;
      results := results + [result];
      i := i + 1;
    }
    MoveAllEnd(store.objects, names, dryRun, sent, results);
  }

  lemma AfterEmpty(r: Run)
    ensures After([], [], r) == r
  {
    assert [] + r.requests == r.requests && [] + r.results == r.results;
  }
}
