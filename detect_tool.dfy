/**
 * The batch detection tool (tools/detection/detect_forecast.py): each pool
 * worker initialises its recogniser once, and `detect` reports a missing
 * file instead of raising, writes the record next to `output_path`, and
 * returns the file name with its cues.
 */
module DetectTool {
  import opened PyStr
  import opened Boundaries
  import opened Detector

  /** What `detect` returns: `("", [])` for a missing file; otherwise the
      name given, its cues, and the record written to `recordPath`. An
      uninitialised worker fails on `rec.Reset()`. */
  datatype ToolResult =
    | NotFound
    | NoRecogniser
    | Found(filename: string, cues: CueMap, recordPath: string, record: Detection)

  /** Where the record of `filename` is written. */
  function RecordPath(outputPath: string, filename: string): string {
    outputPath + "/" + Basename(filename) + ".json"
  }

  /** A pool worker's globals `model`, `rec` and `output_path`. */
  class Worker {
    var initialised: bool
    var outputPath: string

    constructor()
      ensures !initialised && outputPath == ""
    {
      initialised := false;
      outputPath := "";
    }

    /** `get_model`: the first call loads the recogniser and keeps `output`;
        any later call raises and leaves the worker as it was. */
    method GetModel(output: string) returns (raised: bool)
      modifies this
      ensures raised <==> old(initialised)
      ensures initialised
      ensures outputPath == if raised then old(outputPath) else output
    {
      if initialised {
        return true;
      }
      initialised := true;
      outputPath := output;
      raised := false;
    }

    /** `detect(filename)`, where `present` is whether the file is there and
        `ws` is what decoding it yields. */
    method Detect(filename: string, present: bool, ws: seq<Window>) returns (r: ToolResult)
      ensures !present ==> r == NotFound
      ensures present && !initialised ==> r == NoRecogniser
      ensures present && initialised ==>
                r == Found(filename, Detector.Detect(filename, ws).cues,
                           RecordPath(outputPath, filename), Detector.Detect(filename, ws))
    {
      if !present {
        return NotFound;
      }
      if !initialised {
        return NoRecogniser;
      }
      var d := DetectWindows(filename, ws);
      r := Found(filename, d.cues, RecordPath(outputPath, filename), d);
    }
  }

  /** A second `get_model` in the same worker raises and keeps the first
      output path. */
  method InitialiseTwice(first: string, second: string) returns (w: Worker, raisedFirst: bool, raisedSecond: bool)
    ensures !raisedFirst && raisedSecond
    ensures w.initialised && w.outputPath == first
  {
    w := new Worker();
    raisedFirst := w.GetModel(first);
    raisedSecond := w.GetModel(second);
  }

  /** The tool's record lands in the output directory under the recording's
      base name, whatever directory the recording was read from. */
  lemma RecordPathIgnoresDirectory(outputPath: string, dir: string, name: string)
    requires '/' !in name && name != ""
    ensures RecordPath(outputPath, dir + "/" + name) == RecordPath(outputPath, name)
  {
    BasenameOfJoin(dir, name);
    BasenameOfJoin("", name);
    assert "" + "/" + name == "/" + name;
    BasenameOfPlain(name);
  }

  lemma {:induction false} BasenameOfPlain(name: string)
    requires '/' !in name
    ensures Basename(name) == name
    decreases |name|
  {
    if name != [] {
      BasenameOfPlain(name[..|name| - 1]);
      assert name == name[..|name| - 1] + [name[|name| - 1]];
    }
  }

  lemma {:induction false} BasenameOfJoin(dir: string, name: string)
    requires '/' !in name
    ensures Basename(dir + "/" + name) == name
    decreases |name|
  {
    var path := dir + "/" + name;
    if name == [] {
      assert path[|path| - 1] == '/';
    } else {
      var init := name[..|name| - 1];
      assert path[..|path| - 1] == dir + "/" + init;
      BasenameOfJoin(dir, init);
      assert name == init + [name[|name| - 1]];
    }
  }
}
