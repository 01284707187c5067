/**
 * Trim-window selection for one recording (`get_forecast_times` in
 * assemble/assemble_stream.py): a cue map and a duration give the
 * `(start, end)` window, in seconds, that the stream keeps.
 */
module Boundaries {

  /** Trigger category to its cue times, as stored in a cue file. */
  type CueMap = map<string, seq<real>>

  /** A recording's cue file: its `length` and its `cues`. */
  datatype CueData = CueData(length: real, cues: CueMap)

  /** Default `spacing_secs`: padding added around the chosen cues. */
  const Spacing: real := 5.0

  /** The end scan's categories, in priority order. */
  const EndCategories: seq<string> := ["shipping", "bulletin", "bbc", "radio"]

  function StartBoundary(duration: real): real {
    (if duration > 300.0 then 2.5 else 1.5) * 60.0
  }

  function EndBoundary(duration: real): real {
    (if duration > 540.0 then 5.0 else 3.0) * 60.0
  }

  /** `[t for t in xs if t <= bound]`. */
  function AtOrBelow(xs: seq<real>, bound: real): (r: seq<real>)
    ensures forall t :: t in r <==> t in xs && t <= bound
  {
    if xs == [] then []
    else (if xs[0] <= bound then [xs[0]] else []) + AtOrBelow(xs[1..], bound)
  }

  /** `[t for t in xs if t >= bound]`. */
  function AtOrAbove(xs: seq<real>, bound: real): (r: seq<real>)
    ensures forall t :: t in r <==> t in xs && t >= bound
  {
    if xs == [] then []
    else (if xs[0] >= bound then [xs[0]] else []) + AtOrAbove(xs[1..], bound)
  }

  /** `sorted(xs)[-1]`. */
  function Latest(xs: seq<real>): (r: real)
    requires xs != []
    ensures r in xs && forall t :: t in xs ==> t <= r
  {
    if |xs| == 1 then xs[0]
    else
      var m := Latest(xs[1..]);
      assert xs == [xs[0]] + xs[1..];
      if xs[0] < m then m else xs[0]
  }

  /** `sorted(xs)[0]`. */
  function Earliest(xs: seq<real>): (r: real)
    requires xs != []
    ensures r in xs && forall t :: t in xs ==> r <= t
  {
    if |xs| == 1 then xs[0]
    else
      var m := Earliest(xs[1..]);
      assert xs == [xs[0]] + xs[1..];
      if m < xs[0] then m else xs[0]
  }

  /** The start before padding: the latest shipping cue within the boundary,
      falling back to the earliest forecast cue when that is missing or zero. */
  function RawStart(cues: CueMap, duration: real): real {
    var sb := StartBoundary(duration);
    var shipping := if "shipping" in cues then AtOrBelow(cues["shipping"], sb) else [];
    var s := if shipping != [] then Latest(shipping) else 0.0;
    var forecast := if "forecast" in cues then AtOrBelow(cues["forecast"], sb) else [];
    if s == 0.0 && forecast != [] then Earliest(forecast) else s
  }

  /** The `for key in (...)` scan: `end` is the value carried into `keys`. */
  function EndScan(cues: CueMap, keys: seq<string>, bound: real, end: real): real {
    if keys == [] then end
    else if keys[0] !in cues then EndScan(cues, keys[1..], bound, end)
    else
      var later := AtOrAbove(cues[keys[0]], bound);
      var end' := if later != [] then Earliest(later) else end;
      if end' != 0.0 then end' else EndScan(cues, keys[1..], bound, end')
  }

  /** The end before padding: the outcome of the whole category scan. */
  function RawEnd(cues: CueMap, duration: real): real {
    EndScan(cues, EndCategories, EndBoundary(duration), duration)
  }

  /** The window `get_forecast_times` returns. */
  function ForecastTimes(data: CueData): (real, real) {
    var start := RawStart(data.cues, data.length);
    var end := RawEnd(data.cues, data.length);
    (if start > Spacing then start - Spacing else start,
     if end + Spacing < data.length then end + Spacing else end)
  }

  /** `get_forecast_times` as the source writes it: reassignments and a
      `for` loop over the end categories that breaks once `end` is non-zero. */
  method GetForecastTimes(data: CueData) returns (start: real, end: real)
    ensures (start, end) == ForecastTimes(data)
  {
    var duration := data.length;
    var startBoundary := StartBoundary(duration);
    var endBoundary := EndBoundary(duration);
    var cues := data.cues;
    start := 0.0;
    if "shipping" in cues {
      var times := AtOrBelow(cues["shipping"], startBoundary);
      if times != [] {
        start := Latest(times);
      }
    }
    if start == 0.0 && "forecast" in cues {
      var times := AtOrBelow(cues["forecast"], startBoundary);
      if times != [] {
        start := Earliest(times);
      }
    }
    if start > Spacing {
      start := start - Spacing;
    }
    end := duration;
    var i := 0;
    while i < |EndCategories|
      invariant 0 <= i <= |EndCategories|
      invariant EndScan(cues, EndCategories[i..], endBoundary, end)
             == EndScan(cues, EndCategories, endBoundary, duration)
    {
      var key := EndCategories[i];
      if key in cues {
        var times := AtOrAbove(cues[key], endBoundary);
        if times != [] {
          end := Earliest(times);
        }
        if end != 0.0 {
          break;
        }
      }
      i := i + 1;
    }
    if end + Spacing < duration {
      end := end + Spacing;
    }
  }

  /** With no cues at all the whole recording is kept. */
  lemma EmptyCuesKeepEverything(duration: real)
    ensures ForecastTimes(CueData(duration, map[])) == (0.0, duration)
  {
    EndScanNonePresent(map[], EndCategories, EndBoundary(duration), duration);
  }

  /** A scan over categories none of which is present keeps `end`. */
  lemma {:induction false} EndScanNonePresent(cues: CueMap, keys: seq<string>, bound: real, end: real)
    requires forall i :: 0 <= i < |keys| ==> keys[i] !in cues
    ensures EndScan(cues, keys, bound, end) == end
  {
    if keys != [] {
      EndScanNonePresent(cues, keys[1..], bound, end);
    }
  }

  /** The start boundary is 150 s for recordings over five minutes and 90 s
      otherwise; the end boundary is 300 s over nine minutes and 180 s otherwise. */
  lemma BoundaryScaling(duration: real)
    ensures StartBoundary(duration) == 150.0 <==> duration > 300.0
    ensures StartBoundary(duration) == 90.0 <==> duration <= 300.0
    ensures EndBoundary(duration) == 300.0 <==> duration > 540.0
    ensures EndBoundary(duration) == 180.0 <==> duration <= 540.0
  {
  }

  /** No shipping cue lies within the start boundary, or the latest one that does is 0. */
  predicate ShippingStartIsZero(data: CueData) {
    "shipping" in data.cues ==>
      (forall u :: u in data.cues["shipping"] && u <= StartBoundary(data.length) ==> u <= 0.0) &&
      (forall u :: u in data.cues["shipping"] && u <= StartBoundary(data.length) ==> 0.0 in data.cues["shipping"])
  }

  /** The latest shipping cue within the start boundary, when non-zero, is the start. */
  lemma ShippingCueSetsStart(data: CueData, t: real)
    requires "shipping" in data.cues && t in data.cues["shipping"]
    requires t <= StartBoundary(data.length) && t != 0.0
    requires forall u :: u in data.cues["shipping"] && u <= StartBoundary(data.length) ==> u <= t
    ensures RawStart(data.cues, data.length) == t
    ensures ForecastTimes(data).0 == if t > Spacing then t - Spacing else t
  {
  }

  /** When no shipping cue within the boundary is non-zero (none at all, or the
      latest is exactly 0), the earliest forecast cue within the boundary is the start. */
  lemma ForecastCueFallback(data: CueData, t: real)
    requires ShippingStartIsZero(data)
    requires "forecast" in data.cues && t in data.cues["forecast"] && t <= StartBoundary(data.length)
    requires forall u :: u in data.cues["forecast"] && u <= StartBoundary(data.length) ==> t <= u
    ensures RawStart(data.cues, data.length) == t
    ensures ForecastTimes(data).0 == if t > Spacing then t - Spacing else t
  {
  }

  /** With neither a non-zero shipping cue nor any forecast cue within the
      boundary, the window starts at 0. */
  lemma NoStartCue(data: CueData)
    requires ShippingStartIsZero(data)
    requires forall u :: "forecast" in data.cues && u in data.cues["forecast"]
               ==> u > StartBoundary(data.length)
    ensures ForecastTimes(data).0 == 0.0
  {
  }

  /** Padding never moves a non-negative start below 0 or past the start boundary. */
  lemma StartWithinBoundary(data: CueData)
    requires forall k, u :: k in data.cues && u in data.cues[k] ==> u >= 0.0
    ensures 0.0 <= ForecastTimes(data).0 <= StartBoundary(data.length)
  {
  }

  /** Skipping absent categories does not change the scan. */
  lemma {:induction false} EndScanSkipAbsent(cues: CueMap, keys: seq<string>, i: nat, bound: real, end: real)
    requires i <= |keys|
    requires forall j :: 0 <= j < i ==> keys[j] !in cues
    ensures EndScan(cues, keys, bound, end) == EndScan(cues, keys[i..], bound, end)
  {
    if i > 0 {
      EndScanSkipAbsent(cues, keys[1..], i - 1, bound, end);
      assert keys[1..][i - 1..] == keys[i..];
    }
  }

  /** The first end category present in the cue map alone decides the end: its
      earliest cue at or after the end boundary, or else the duration (the scan
      stops there whenever the duration is non-zero, even without a usable cue). */
  lemma FirstPresentCategoryDecidesEnd(data: CueData, i: nat)
    requires i < |EndCategories| && EndCategories[i] in data.cues
    requires forall j :: 0 <= j < i ==> EndCategories[j] !in data.cues
    ensures var later := AtOrAbove(data.cues[EndCategories[i]], EndBoundary(data.length));
            (later != [] ==> RawEnd(data.cues, data.length) == Earliest(later)) &&
            (later == [] && data.length != 0.0 ==> RawEnd(data.cues, data.length) == data.length)
  {
    EndScanSkipAbsent(data.cues, EndCategories, i, EndBoundary(data.length), data.length);
  }

  /** With no end category present the window runs to the end of the recording. */
  lemma NoEndCategory(data: CueData)
    requires forall k :: k in EndCategories ==> k !in data.cues
    ensures ForecastTimes(data).1 == data.length
  {
    EndScanNonePresent(data.cues, EndCategories, EndBoundary(data.length), data.length);
  }

  lemma {:induction false} EndScanBounded(cues: CueMap, keys: seq<string>, bound: real, end: real, limit: real)
    requires end <= limit
    requires forall k, t :: k in keys && k in cues && t in cues[k] ==> t <= limit
    ensures EndScan(cues, keys, bound, end) <= limit
  {
    if keys != [] {
      if keys[0] in cues {
        var later := AtOrAbove(cues[keys[0]], bound);
        var end' := if later != [] then Earliest(later) else end;
        EndScanBounded(cues, keys[1..], bound, end', limit);
      } else {
        EndScanBounded(cues, keys[1..], bound, end, limit);
      }
    }
  }

  /** The end is padded only while it stays short of the duration, so it never
      passes the duration when no end-category cue does. */
  lemma EndWithinDuration(data: CueData)
    requires forall k, t :: k in EndCategories && k in data.cues && t in data.cues[k] ==> t <= data.length
    ensures ForecastTimes(data).1 <= data.length
    ensures ForecastTimes(data).1 >= RawEnd(data.cues, data.length)
  {
    EndScanBounded(data.cues, EndCategories, EndBoundary(data.length), data.length, data.length);
  }

  /** A shipping cue before the end boundary blocks the bbc cue after it. */
  lemma PresentButEarlyCategoryBlocksLaterOnes()
    ensures ForecastTimes(CueData(360.0, map["shipping" := [40.0], "bbc" := [310.0]])) == (35.0, 360.0)
  {
    var cues := map["shipping" := [40.0], "bbc" := [310.0]];
    FirstPresentCategoryDecidesEnd(CueData(360.0, cues), 0);
    assert AtOrBelow(cues["shipping"], 150.0) == [40.0];
  }
}
