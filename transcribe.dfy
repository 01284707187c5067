/**
 * The batch entry point of the transcriber (`handle_batch_event` in
 * transcribe/transcribe_forecast.py): one result per task, in task order,
 * whose text lists the shipping cues, the forecast cues and the length.
 */
module Transcribe {
  import opened PyStr
  import opened Detector

  /** How fetching and decoding a task's recording went: an exception with
      its message (a failed download, a missing file, a failed upload), or
      the file name and the recogniser's answers for its windows. */
  datatype TaskRun = Raised(message: string) | Decoded(filename: string, windows: seq<Window>)

  datatype Task = Task(taskId: string, run: TaskRun)

  datatype ResultCode = Succeeded | PermanentFailure

  datatype TaskResult = TaskResult(taskId: string, code: ResultCode, text: string)

  /** `cues.get("shipping", []) + cues.get("forecast", []) + [length]`. */
  function Timings(d: Detection): seq<real> {
    CuesFor(d.cues, "shipping") + CuesFor(d.cues, "forecast") + [d.length]
  }

  /** `map(str, xs)`, with the float formatting `show` given. */
  function Shown(xs: seq<real>, show: real -> string): (r: seq<string>)
    ensures |r| == |xs| && forall i :: 0 <= i < |xs| ==> r[i] == show(xs[i])
  {
    if xs == [] then [] else [show(xs[0])] + Shown(xs[1..], show)
  }

  /** The result recorded for one task. */
  function Outcome(task: Task, show: real -> string): TaskResult {
    match task.run
    case Raised(message) => TaskResult(task.taskId, PermanentFailure, message)
    case Decoded(filename, ws) =>
      TaskResult(task.taskId, Succeeded, Join(Shown(Timings(Detect(filename, ws)), show), ","))
  }

  /** A task succeeds exactly when its recording was decoded, and a failure
      carries the exception's message. A success's text splits on commas
      into the shipping cues, then the forecast cues, then the length, since
      no formatted number contains a comma. */
  lemma OutcomeFields(task: Task, show: real -> string)
    requires forall x :: ',' !in show(x)
    ensures var r := Outcome(task, show);
            && r.taskId == task.taskId
            && (r.code == Succeeded <==> task.run.Decoded?)
            && (task.run.Raised? ==> r.text == task.run.message)
            && (task.run.Decoded? ==>
                  var d := Detect(task.run.filename, task.run.windows);
                  var fields := SplitOn(r.text, ',');
                  && |fields| == |CuesFor(d.cues, "shipping")| + |CuesFor(d.cues, "forecast")| + 1
                  && fields == Shown(Timings(d), show)
                  && fields[|fields| - 1] == show(d.length))
  {
    if task.run.Decoded? {
      var d := Detect(task.run.filename, task.run.windows);
      var parts := Shown(Timings(d), show);
      forall i | 0 <= i < |parts|
        ensures ',' !in parts[i]
      {
        var x := Timings(d)[i];
        assert parts[i] == show(x);
        assert ',' !in show(x);
      }
      SplitJoin(parts, ',');
      assert "," == [','];
    }
  }

  /** `handle_batch_event`'s loop: every task gets a result, in order. */
  method HandleBatchEvent(tasks: seq<Task>, show: real -> string) returns (results: seq<TaskResult>)
    ensures |results| == |tasks|
    ensures forall i :: 0 <= i < |tasks| ==> results[i] == Outcome(tasks[i], show)
  {
    results := [];
    for i := 0 to |tasks|
      invariant |results| == i
      invariant forall j :: 0 <= j < i ==> results[j] == Outcome(tasks[j], show)
    {
      var task := tasks[i];
      var result: TaskResult;
      match task.run {
        case Raised(message) =>
          result := TaskResult(task.taskId, PermanentFailure, message);
        case Decoded(filename, ws) =>
          var d := DetectWindows(filename, ws);
          result := TaskResult(task.taskId, Succeeded, Join(Shown(Timings(d), show), ","));
      }
      results := results + [result];
    }
  }
}
