/**
 * The streaming cue detector (`detect`, identical in
 * transcribe/transcribe_forecast.py, transcribe_forecast.py and
 * tools/detection/detect_forecast.py). The decoder's output is read in
 * windows; the speech recogniser's answer for each window is an input here.
 * A trigger word heard in a window's result records a cue at the offset
 * where that window starts, less the trigger's latency.
 */
module Detector {
  import opened PyStr
  import opened Boundaries

  const SampleRate: nat := 16000

  /** 16-bit mono samples: two bytes per sample. */
  const BytesPerSecond: nat := SampleRate * 2

  /** The size of each read from the decoder: a quarter second. */
  const WindowSize: nat := BytesPerSecond / 4

  /** The trigger words, in the order the scan visits them. */
  const TriggerOrder: seq<string> := ["shipping", "forecast", "bulletin", "bbc", "radio"]

  /** Each trigger's recognition latency in seconds. */
  const Latency: map<string, real> :=
    map["shipping" := 0.625, "forecast" := 0.625, "bulletin" := 0.625, "bbc" := 0.5, "radio" := 0.5]

  /** One read from the decoder and the recogniser's answer to it: `len`
      bytes, whether the utterance is complete, the raw result text the
      triggers are searched in, and the parsed `text` ("" when absent). */
  datatype Window = Window(len: nat, complete: bool, result: string, text: string)

  /** A transcript line: its start offset and its text. */
  datatype Line = Line(time: real, text: string)

  datatype State = State(cues: CueMap, seen: set<string>, lines: seq<Line>, bytesRead: nat, lineStart: real)

  const Initial: State := State(map[], {}, [], 0, 0.0)

  /** The returned record. */
  datatype Detection = Detection(file: string, cues: CueMap, transcript: seq<Line>, length: real)

  /** A byte offset in seconds. */
  function Offset(bytes: nat): real {
    bytes as real / BytesPerSecond as real
  }

  /** The cue list of `t`, empty when there is none. */
  function CuesFor(cues: CueMap, t: string): seq<real> {
    if t in cues then cues[t] else []
  }

  /** Trigger `t` fires in a scan of `trigs` over `result`. */
  predicate Fires(trigs: seq<string>, seen: set<string>, result: string, t: string) {
    t in trigs && t !in seen && Contains(result, t)
  }

  /** The `for trigger, cue_latency in triggers.items()` scan: every trigger
      not yet seen in this utterance whose name occurs in `result` records a
      cue at `at` less its latency. */
  function Scan(trigs: seq<string>, result: string, at: real, cues: CueMap, seen: set<string>): (CueMap, set<string>)
    requires forall n :: n in trigs ==> n in Latency
  {
    if trigs == [] then (cues, seen)
    else if trigs[0] in seen || !Contains(result, trigs[0]) then Scan(trigs[1..], result, at, cues, seen)
    else
      var name := trigs[0];
      Scan(trigs[1..], result, at, cues[name := CuesFor(cues, name) + [at - Latency[name]]], seen + {name})
  }

  /** One iteration of the `while True` loop on a non-empty window. */
  function Step(s: State, w: Window): State {
    var lines := if w.complete && w.text != "" then s.lines + [Line(s.lineStart, w.text)] else s.lines;
    var (cues, seen) := Scan(TriggerOrder, w.result, Offset(s.bytesRead), s.cues, s.seen);
    var bytesRead := s.bytesRead + w.len;
    if w.complete then State(cues, {}, lines, bytesRead, Offset(bytesRead))
    else State(cues, seen, lines, bytesRead, s.lineStart)
  }

  /** The loop: it ends at the first empty read, or when the input runs out. */
  function Run(s: State, ws: seq<Window>): State
    decreases |ws|
  {
    if ws == [] || ws[0].len == 0 then s else Run(Step(s, ws[0]), ws[1..])
  }

  /** The windows the loop consumes: those before the first empty read. */
  function Processed(ws: seq<Window>): (r: seq<Window>)
    ensures |r| <= |ws| && r == ws[..|r|]
    ensures forall k :: 0 <= k < |r| ==> r[k].len > 0
    ensures |r| < |ws| ==> ws[|r|].len == 0
  {
    if ws == [] || ws[0].len == 0 then [] else [ws[0]] + Processed(ws[1..])
  }

  /** What `detect` returns for `filename` once decoding yields `ws`. */
  function Detect(filename: string, ws: seq<Window>): Detection {
    var s := Run(Initial, ws);
    Detection(Basename(filename), s.cues, s.lines, Offset(s.bytesRead))
  }

  /** `detect`'s loop, with the recogniser's answers supplied as `ws`. */
  method DetectWindows(filename: string, ws: seq<Window>) returns (d: Detection)
    ensures d == Detect(filename, ws)
  {
    var cues: CueMap := map[];
    var seen: set<string> := {};
    var lines: seq<Line> := [];
    var bytesRead: nat := 0;
    var lineStart: real := 0.0;
    ghost var whole := Run(Initial, ws);
    var k := 0;
    assert ws[0..] == ws;
    while k < |ws|
      invariant k <= |ws|
      invariant Run(State(cues, seen, lines, bytesRead, lineStart), ws[k..]) == whole
    {
      var w := ws[k];
      ghost var s := State(cues, seen, lines, bytesRead, lineStart);
      if w.len == 0 {
        RunStops(s, ws[k..]);
        break;
      }
      RunUnfolds(s, ws[k..]);
      assert ws[k..][1..] == ws[k + 1..];
      if w.complete && w.text != "" {
        lines := lines + [Line(lineStart, w.text)];
      }
      var at := Offset(bytesRead);
      cues, seen := ScanTriggers(w.result, at, cues, seen);
      bytesRead := bytesRead + w.len;
      if w.complete {
        lineStart := Offset(bytesRead);
        seen := {};
      }
      assert State(cues, seen, lines, bytesRead, lineStart) == Step(s, w);
      k := k + 1;
    }
    if k == |ws| {
      RunStops(State(cues, seen, lines, bytesRead, lineStart), ws[k..]);
    }
    d := Detection(Basename(filename), cues, lines, Offset(bytesRead));
  }

  /** The inner `for` loop over the trigger table. */
  method ScanTriggers(result: string, at: real, cues0: CueMap, seen0: set<string>)
    returns (cues: CueMap, seen: set<string>)
    ensures (cues, seen) == Scan(TriggerOrder, result, at, cues0, seen0)
  {
    cues, seen := cues0, seen0;
    ghost var scanned := Scan(TriggerOrder, result, at, cues0, seen0);
    var i := 0;
    while i < |TriggerOrder|
      invariant i <= |TriggerOrder|
      invariant Scan(TriggerOrder[i..], result, at, cues, seen) == scanned
    {
      var name := TriggerOrder[i];
      assert TriggerOrder[i..][1..] == TriggerOrder[i + 1..];
      if name !in seen && Contains(result, name) {
        cues := cues[name := CuesFor(cues, name) + [at - Latency[name]]];
        seen := seen + {name};
      }
      i := i + 1;
    }
  }

  lemma RunStops(s: State, ws: seq<Window>)
    requires ws == [] || ws[0].len == 0
    ensures Run(s, ws) == s
  {
  }

  lemma RunUnfolds(s: State, ws: seq<Window>)
    requires ws != [] && ws[0].len > 0
    ensures Run(s, ws) == Run(Step(s, ws[0]), ws[1..])
  {
  }

  /** The scan records exactly one cue, at `at` less the latency, for each
      trigger it fires, and adds those triggers to `seen`. */
  lemma {:induction false} ScanEffect(trigs: seq<string>, result: string, at: real, cues: CueMap,
                                     seen: set<string>, t: string)
    requires forall n :: n in trigs ==> n in Latency
    ensures var (cues', seen') := Scan(trigs, result, at, cues, seen);
            && CuesFor(cues', t) == CuesFor(cues, t) + (if Fires(trigs, seen, result, t) then [at - Latency[t]] else [])
            && (t in cues' <==> t in cues || Fires(trigs, seen, result, t))
            && (t in seen' <==> t in seen || Fires(trigs, seen, result, t))
    decreases |trigs|
  {
    if trigs != [] {
      var name := trigs[0];
      if name in seen || !Contains(result, name) {
        ScanEffect(trigs[1..], result, at, cues, seen, t);
        assert Fires(trigs, seen, result, t) == Fires(trigs[1..], seen, result, t);
      } else {
        var cues1 := cues[name := CuesFor(cues, name) + [at - Latency[name]]];
        ScanEffect(trigs[1..], result, at, cues1, seen + {name}, t);
        if t == name {
          assert !Fires(trigs[1..], seen + {name}, result, t);
        } else {
          assert Fires(trigs, seen, result, t) == Fires(trigs[1..], seen + {name}, result, t);
        }
      }
    }
  }

  /** A trigger is fired by a window exactly when it has not been heard yet
      in this utterance and the window's result contains it. */
  predicate Heard(s: State, w: Window, t: string) {
    t in Latency && t !in s.seen && Contains(w.result, t)
  }

  /** One step: the cue list of `t` grows by the window's start offset less
      the latency exactly when `t` is heard; a transcript line is added only
      for a complete result with text; `seen` is cleared after a complete
      result and otherwise gains the triggers heard. */
  lemma StepEffect(s: State, w: Window, t: string)
    ensures var s' := Step(s, w);
            && CuesFor(s'.cues, t) == CuesFor(s.cues, t) + (if Heard(s, w, t) then [Offset(s.bytesRead) - Latency[t]] else [])
            && (t in s'.cues <==> t in s.cues || Heard(s, w, t))
            && (t in s'.seen <==> !w.complete && (t in s.seen || Heard(s, w, t)))
            && s'.lines == s.lines + (if w.complete && w.text != "" then [Line(s.lineStart, w.text)] else [])
            && s'.bytesRead == s.bytesRead + w.len
            && s'.lineStart == (if w.complete then Offset(s'.bytesRead) else s.lineStart)
  {
    ScanEffect(TriggerOrder, w.result, Offset(s.bytesRead), s.cues, s.seen, t);
    assert t in TriggerOrder <==> t in Latency;
  }

  predicate Increasing(xs: seq<real>) {
    forall i, j :: 0 <= i < j < |xs| ==> xs[i] < xs[j]
  }

  predicate NonDecreasing(lines: seq<Line>) {
    forall i, j :: 0 <= i < j < |lines| ==> lines[i].time <= lines[j].time
  }

  /** What every state the loop reaches satisfies. */
  predicate Valid(s: State) {
    && (forall t :: t in s.cues ==> t in Latency)
    && (forall t :: t in s.cues ==> Increasing(s.cues[t]))
    && (forall t, j :: t in s.cues && 0 <= j < |s.cues[t]| ==> s.cues[t][j] < Offset(s.bytesRead) - Latency[t])
    && (forall t :: t in s.seen ==> t in s.cues)
    && NonDecreasing(s.lines)
    && (forall j :: 0 <= j < |s.lines| ==> 0.0 <= s.lines[j].time <= s.lineStart)
    && 0.0 <= s.lineStart <= Offset(s.bytesRead)
  }

  lemma OffsetGrows(a: nat, b: nat)
    requires a < b
    ensures Offset(a) < Offset(b)
  {
  }

  /** Appending a value above every element keeps a list increasing. */
  lemma AppendIncreasing(xs: seq<real>, x: real)
    requires Increasing(xs)
    requires forall j :: 0 <= j < |xs| ==> xs[j] < x
    ensures Increasing(xs + [x])
  {
  }

  lemma StepCuesValid(s: State, w: Window, t: string)
    requires Valid(s) && w.len > 0
    ensures var s' := Step(s, w);
            t in s'.cues ==>
              && t in Latency
              && Increasing(s'.cues[t])
              && forall j :: 0 <= j < |s'.cues[t]| ==> s'.cues[t][j] < Offset(s'.bytesRead) - Latency[t]
  {
    var s' := Step(s, w);
    StepEffect(s, w, t);
    OffsetGrows(s.bytesRead, s'.bytesRead);
    if t in s'.cues {
      assert s'.cues[t] == CuesFor(s'.cues, t);
      if Heard(s, w, t) {
        AppendIncreasing(CuesFor(s.cues, t), Offset(s.bytesRead) - Latency[t]);
      }
    }
  }

  /** The loop keeps `Valid` on every non-empty window. */
  lemma StepValid(s: State, w: Window)
    requires Valid(s) && w.len > 0
    ensures Valid(Step(s, w))
  {
    var s' := Step(s, w);
    forall t | t in s'.cues
      ensures t in Latency && Increasing(s'.cues[t])
    {
      StepCuesValid(s, w, t);
    }
    forall t, j | t in s'.cues && 0 <= j < |s'.cues[t]|
      ensures s'.cues[t][j] < Offset(s'.bytesRead) - Latency[t]
    {
      StepCuesValid(s, w, t);
    }
    forall t | t in s'.seen
      ensures t in s'.cues
    {
      StepEffect(s, w, t);
    }
    StepEffect(s, w, "");
    OffsetGrows(s.bytesRead, s'.bytesRead);
  }

  lemma {:induction false} RunValid(s: State, ws: seq<Window>)
    requires Valid(s)
    ensures Valid(Run(s, ws))
    decreases |ws|
  {
    if ws != [] && ws[0].len > 0 {
      StepValid(s, ws[0]);
      RunValid(Step(s, ws[0]), ws[1..]);
    }
  }

  /** Each trigger's cues are strictly increasing, and each cue plus its
      latency lies before the end of the audio; transcript lines are in
      non-decreasing time order and start within the audio. */
  lemma DetectionIsOrdered(filename: string, ws: seq<Window>)
    ensures var d := Detect(filename, ws);
            && (forall t :: t in d.cues ==> t in Latency && Increasing(d.cues[t]))
            && (forall t, j :: t in d.cues && 0 <= j < |d.cues[t]| ==> d.cues[t][j] + Latency[t] < d.length)
            && NonDecreasing(d.transcript)
            && (forall j :: 0 <= j < |d.transcript| ==> 0.0 <= d.transcript[j].time <= d.length)
  {
    RunValid(Initial, ws);
  }

  /** Some consumed window's result mentions `t`. */
  predicate Mentioned(ws: seq<Window>, t: string) {
    exists k :: 0 <= k < |ws| && Contains(ws[k].result, t)
  }

  lemma MentionedCons(w: Window, ws: seq<Window>, t: string)
    ensures Mentioned([w] + ws, t) <==> Contains(w.result, t) || Mentioned(ws, t)
  {
    var all := [w] + ws;
    assert all[0] == w;
    if Mentioned(ws, t) {
      var k :| 0 <= k < |ws| && Contains(ws[k].result, t);
      assert all[k + 1] == ws[k];
    }
    if Mentioned(all, t) {
      var k :| 0 <= k < |all| && Contains(all[k].result, t);
      if k > 0 {
        assert all[k] == ws[k - 1];
      }
    }
  }

  lemma {:induction false} RunKeys(s: State, ws: seq<Window>, t: string)
    requires forall n :: n in s.seen ==> n in s.cues
    ensures t in Run(s, ws).cues <==> t in s.cues || (t in Latency && Mentioned(Processed(ws), t))
    decreases |ws|
  {
    if ws != [] && ws[0].len > 0 {
      var s' := Step(s, ws[0]);
      forall n | n in s'.seen
        ensures n in s'.cues
      {
        StepEffect(s, ws[0], n);
      }
      StepEffect(s, ws[0], t);
      RunKeys(s', ws[1..], t);
      MentionedCons(ws[0], Processed(ws[1..]), t);
    }
  }

  /** A trigger has a cue list exactly when it is a trigger word and some
      consumed window's result contains it. */
  lemma CueKeysAreHeardTriggers(filename: string, ws: seq<Window>, t: string)
    ensures t in Detect(filename, ws).cues <==> t in Latency && Mentioned(Processed(ws), t)
  {
    RunKeys(Initial, ws, t);
  }

  /** Within one utterance (no complete result except possibly the last
      window), a trigger records at most one cue, and none if it was
      already heard in this utterance. */
  lemma {:induction false} AtMostOncePerUtterance(s: State, ws: seq<Window>, t: string)
    requires forall k :: 0 <= k < |ws| - 1 ==> !ws[k].complete
    ensures |CuesFor(Run(s, ws).cues, t)| <= |CuesFor(s.cues, t)| + (if t in s.seen then 0 else 1)
    decreases |ws|
  {
    if ws != [] && ws[0].len > 0 {
      var s' := Step(s, ws[0]);
      StepEffect(s, ws[0], t);
      if |ws| == 1 {
        assert Run(s, ws) == Run(s', []);
      } else {
        AtMostOncePerUtterance(s', ws[1..], t);
      }
    }
  }

  /** The texts of the complete, non-empty results, in order. */
  function Spoken(ws: seq<Window>): seq<string> {
    if ws == [] then []
    else (if ws[0].complete && ws[0].text != "" then [ws[0].text] else []) + Spoken(ws[1..])
  }

  function Texts(lines: seq<Line>): seq<string> {
    if lines == [] then [] else [lines[0].text] + Texts(lines[1..])
  }

  lemma {:induction false} TextsAppend(a: seq<Line>, b: seq<Line>)
    ensures Texts(a + b) == Texts(a) + Texts(b)
    decreases |a|
  {
    if a != [] {
      assert (a + b)[1..] == a[1..] + b;
      assert (a + b)[0] == a[0];
      TextsAppend(a[1..], b);
      assert Texts(a + b) == [a[0].text] + Texts(a[1..] + b);
    } else {
      assert a + b == b;
    }
  }

  lemma {:induction false} RunLines(s: State, ws: seq<Window>)
    ensures Texts(Run(s, ws).lines) == Texts(s.lines) + Spoken(Processed(ws))
    decreases |ws|
  {
    if ws != [] && ws[0].len > 0 {
      var s' := Step(s, ws[0]);
      StepEffect(s, ws[0], "");
      RunLines(s', ws[1..]);
      TextsAppend(s.lines, s'.lines[|s.lines|..]);
      assert s'.lines == s.lines + s'.lines[|s.lines|..];
      assert ([ws[0]] + Processed(ws[1..]))[1..] == Processed(ws[1..]);
      if ws[0].complete && ws[0].text != "" {
        assert Texts(s'.lines[|s.lines|..]) == [ws[0].text];
      }
    }
  }

  /** The transcript holds one line per complete result with text, in order. */
  lemma TranscriptIsSpokenText(filename: string, ws: seq<Window>)
    ensures Texts(Detect(filename, ws).transcript) == Spoken(Processed(ws))
  {
    RunLines(Initial, ws);
  }

  function TotalBytes(ws: seq<Window>): nat {
    if ws == [] then 0 else ws[0].len + TotalBytes(ws[1..])
  }

  lemma {:induction false} RunBytes(s: State, ws: seq<Window>)
    ensures Run(s, ws).bytesRead == s.bytesRead + TotalBytes(Processed(ws))
    decreases |ws|
  {
    if ws != [] && ws[0].len > 0 {
      RunBytes(Step(s, ws[0]), ws[1..]);
      assert ([ws[0]] + Processed(ws[1..]))[1..] == Processed(ws[1..]);
    }
  }

  /** The reported length is the bytes consumed, in seconds. */
  lemma LengthIsTotalBytes(filename: string, ws: seq<Window>)
    ensures Detect(filename, ws).length == Offset(TotalBytes(Processed(ws)))
  {
    var s := Run(Initial, ws);
    assert Detect(filename, ws).length == Offset(s.bytesRead);
    RunBytes(Initial, ws);
    assert s.bytesRead == 0 + TotalBytes(Processed(ws));
  }

  /** Each full read advances the offset by a quarter second: 8000 of the
      32000 bytes in a second of 16 kHz, 16-bit mono audio. */
  lemma FullWindowIsQuarterSecond(s: State, w: Window)
    requires w.len == WindowSize
    ensures Offset(Step(s, w).bytesRead) == Offset(s.bytesRead) + 0.25
  {
    assert WindowSize == 8000 && BytesPerSecond == 32000;
    assert Step(s, w).bytesRead == s.bytesRead + 8000;
  }

  /** `n` full windows in which the recogniser hears nothing yet. */
  function Quiet(n: nat): (ws: seq<Window>)
    ensures |ws| == n && forall k :: 0 <= k < n ==> ws[k] == Window(WindowSize, false, "", "")
  {
    seq(n, _ => Window(WindowSize, false, "", ""))
  }

  /** Quiet windows only advance the byte count. */
  lemma {:induction false} RunQuiet(s: State, n: nat, rest: seq<Window>)
    ensures Run(s, Quiet(n) + rest) == Run(s.(bytesRead := s.bytesRead + n * WindowSize), rest)
    decreases n
  {
    if n == 0 {
      assert Quiet(0) + rest == rest;
    } else {
      var w := Window(WindowSize, false, "", "");
      var ws := Quiet(n) + rest;
      assert ws[0] == w && ws[0].len > 0;
      assert ws[1..] == Quiet(n - 1) + rest;
      assert Run(s, ws) == Run(Step(s, w), ws[1..]);
      QuietStep(s);
      RunQuiet(Step(s, w), n - 1, rest);
      assert (s.bytesRead + WindowSize) + (n - 1) * WindowSize == s.bytesRead + n * WindowSize by {
        MulPred(n, WindowSize);
      }
    }
  }

  lemma MulPred(n: nat, k: nat)
    requires n > 0
    ensures (n - 1) * k == n * k - k
  {
  }

  lemma QuietStep(s: State)
    ensures Step(s, Window(WindowSize, false, "", "")) == s.(bytesRead := s.bytesRead + WindowSize)
  {
    NoTriggerNoCue(TriggerOrder, "", Offset(s.bytesRead), s.cues, s.seen);
  }

  /** A scan over a result that mentions no trigger changes nothing. */
  lemma {:induction false} NoTriggerNoCue(trigs: seq<string>, result: string, at: real, cues: CueMap, seen: set<string>)
    requires forall n :: n in trigs ==> n in Latency && !Contains(result, n)
    ensures Scan(trigs, result, at, cues, seen) == (cues, seen)
    decreases |trigs|
  {
    if trigs != [] {
      NoTriggerNoCue(trigs[1..], result, at, cues, seen);
    }
  }

  /** A complete window whose result mentions "shipping" and no other
      trigger records one shipping cue at the window's start, less 0.625 s. */
  lemma ShippingStep(s: State, w: Window)
    requires "shipping" !in s.seen && w.complete
    requires Contains(w.result, "shipping")
    requires forall t :: t in TriggerOrder[1..] ==> !Contains(w.result, t)
    ensures var s' := Step(s, w);
            && s'.cues == s.cues["shipping" := CuesFor(s.cues, "shipping") + [Offset(s.bytesRead) - 0.625]]
            && s'.seen == {} && s'.bytesRead == s.bytesRead + w.len
  {
    var at := Offset(s.bytesRead);
    var cues1 := s.cues["shipping" := CuesFor(s.cues, "shipping") + [at - Latency["shipping"]]];
    var rest := TriggerOrder[1..];
    assert Scan(TriggerOrder, w.result, at, s.cues, s.seen) == Scan(rest, w.result, at, cues1, s.seen + {"shipping"});
    NoTriggerNoCue(rest, w.result, at, cues1, s.seen + {"shipping"});
  }

  /** "shipping" mentions no other trigger word. */
  lemma OnlyShipping(r: string)
    requires r == "shipping"
    ensures Contains(r, "shipping")
    ensures forall t :: t in TriggerOrder[1..] ==> !Contains(r, t)
  {
    assert r[..|r|] == r;
    FirstCharAbsent(r, "forecast");
    FirstCharAbsent(r, "bulletin");
    FirstCharAbsent(r, "bbc");
    FirstCharAbsent(r, "radio");
    assert TriggerOrder[1..] == ["forecast", "bulletin", "bbc", "radio"];
  }

  /** "shipping" heard in utterances that start 10 s and 40 s into the audio
      gives the cues 9.375 and 39.375, and no other trigger has cues. */
  lemma ShippingHeardTwice(hit: Window, ws: seq<Window>)
    requires hit == Window(WindowSize, true, "shipping", "shipping")
    requires ws == Quiet(40) + [hit] + Quiet(119) + [hit]
    ensures Detect("f.mp3", ws).cues == map["shipping" := [9.375, 39.375]]
  {
    OnlyShipping(hit.result);
    var tail := Quiet(119) + [hit];
    var s1 := Initial.(bytesRead := 40 * WindowSize);
    var s2 := HeardNext(s1, hit, tail);
    var s3 := s2.(bytesRead := s2.bytesRead + 119 * WindowSize);
    var s4 := HeardNext(s3, hit, []);
    calc {
      Run(Initial, ws);
      { assert ws == Quiet(40) + ([hit] + tail); RunQuiet(Initial, 40, [hit] + tail); }
      Run(s1, [hit] + tail);
      Run(s2, tail);
      { assert tail == Quiet(119) + ([hit] + []); RunQuiet(s2, 119, [hit] + []); }
      Run(s3, [hit] + []);
      Run(s4, []);
    }
    HitOffsets();
    assert s2.cues == map["shipping" := [9.375]] by {
      assert CuesFor(s1.cues, "shipping") + [9.375] == [9.375];
    }
    assert s4.cues == map["shipping" := [9.375, 39.375]] by {
      assert CuesFor(s3.cues, "shipping") + [39.375] == [9.375, 39.375];
    }
  }

  /** A complete utterance that names only "shipping", read next: one
      shipping cue at the utterance's start, less 0.625 s. */
  lemma HeardNext(s: State, hit: Window, rest: seq<Window>) returns (s': State)
    requires "shipping" !in s.seen && hit.complete && hit.len > 0
    requires Contains(hit.result, "shipping")
    requires forall t :: t in TriggerOrder[1..] ==> !Contains(hit.result, t)
    ensures Run(s, [hit] + rest) == Run(s', rest)
    ensures s'.cues == s.cues["shipping" := CuesFor(s.cues, "shipping") + [Offset(s.bytesRead) - 0.625]]
    ensures s'.seen == {} && s'.bytesRead == s.bytesRead + hit.len
  {
    assert ([hit] + rest)[0] == hit && ([hit] + rest)[1..] == rest;
    s' := Step(s, hit);
    ShippingStep(s, hit);
  }

  /** The starts of the two utterances, 10 s and 40 s in, less the latency. */
  lemma HitOffsets()
    ensures Offset(40 * WindowSize) - 0.625 == 9.375
    ensures Offset(40 * WindowSize + WindowSize + 119 * WindowSize) - 0.625 == 39.375
  {
    assert 40 * WindowSize == 320000;
    assert 40 * WindowSize + WindowSize + 119 * WindowSize == 1280000;
  }
}
