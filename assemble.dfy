/**
 * Stream assembly (`handle_event` and `fade_audio_stream` in
 * assemble/assemble_stream.py): starting from the latest catalogued
 * recording and continuing with random ones, each recording is trimmed to
 * its window, faded, and appended whole until the stream reaches its target size.
 */
module Assemble {
  import opened Wrappers
  import opened Catalog
  import opened Boundaries
  import opened ObjectKeys

  newtype byte = b: int | 0 <= b < 0x100

  /** `BYTES_PER_SEC = 1 << 13`: the encoded-size estimate of one second of stream. */
  const BytesPerSec: nat := 8192

  /** `config["default_length"]`: 45 minutes. */
  const DefaultLength: int := 45 * 60

  /** `config["fade_secs"]`. */
  const FadeSecs: real := 5.0

  /** The trim and fade arguments handed to the external encoder. */
  datatype FadeRequest = FadeRequest(start: real, end: real, fadeSecs: real, fadeStart: real)

  /** The external collaborators: the bucket's cue files and recordings, and
      the encoder that trims and fades a recording. */
  datatype Sources = Sources(
    cueFile: string -> CueData,
    recording: string -> seq<byte>,
    transcode: (seq<byte>, FadeRequest) -> seq<byte>)

  /** `fade_start = end - start - fade_secs` in `fade_audio_stream`. */
  function FadeArgs(start: real, end: real, fadeSecs: real): (r: FadeRequest)
    ensures r.start == start && r.end == end && r.fadeSecs == fadeSecs
    ensures r.fadeStart + r.fadeSecs == r.end - r.start
  {
    FadeRequest(start, end, fadeSecs, end - start - fadeSecs)
  }

  /** The trimmed, faded audio one recording contributes. */
  function Segment(src: Sources, file: string): seq<byte> {
    var (start, end) := ForecastTimes(src.cueFile(CueKey(file)));
    src.transcode(src.recording(ArchiveKey(file)), FadeArgs(start, end, FadeSecs))
  }

  /** The segments of `files`, concatenated in order. */
  function Concat(src: Sources, files: seq<string>): seq<byte> {
    if files == [] then []
    else Concat(src, files[..|files| - 1]) + Segment(src, files[|files| - 1])
  }

  /** `int(event["length"]) if "length" in event else config["default_length"]`. */
  function StreamSecs(length: Option<int>): int {
    length.GetOr(DefaultLength)
  }

  function Target(length: Option<int>): int {
    StreamSecs(length) * BytesPerSec
  }

  /** How one invocation ends: the uploaded stream with the recordings it was
      built from; `Failed` where `get_last_file` or `get_random_file` raises;
      `OutOfPicks` when the random choices supplied are used up. */
  datatype Assembly = Uploaded(stream: seq<byte>, files: seq<string>) | Failed | OutOfPicks

  /** The `while` loop, from the point where `files` have been appended and
      `file` is the next recording; `random` is `get_random_file` on the catalog. */
  function Run(random: Picks -> Option<string>, src: Sources, target: int, picks: seq<Picks>,
               file: string, stream: seq<byte>, files: seq<string>): Assembly
    requires |files| <= |picks|
    decreases |picks| - |files|
  {
    if |stream| >= target then Uploaded(stream, files)
    else if |files| == |picks| then OutOfPicks
    else
      match random(picks[|files|])
      case None => Failed
      case Some(next) => Run(random, src, target, picks, next, stream + Segment(src, file), files + [file])
  }

  /** What one invocation of the handler does. */
  function Assembled(c: Catalog, src: Sources, length: Option<int>, picks: seq<Picks>): Assembly {
    Start(p => RandomFile(c, p), src, Target(length), picks, LastFile(c))
  }

  /** The loop started on `get_last_file`'s answer `first`. */
  function Start(random: Picks -> Option<string>, src: Sources, target: int, picks: seq<Picks>,
                 first: Option<string>): Assembly {
    match first
    case None => Failed
    case Some(f) => Run(random, src, target, picks, f, [], [])
  }

  /** `handle_event`: the loop appends each segment to the growing stream.
      Picks `picks[i]` drive the `get_random_file` call of iteration `i`. */
  method HandleEvent(c: Catalog, src: Sources, length: Option<int>, picks: seq<Picks>)
    returns (outcome: Assembly)
    ensures outcome == Assembled(c, src, length, picks)
  {
    var target := StreamSecs(length) * BytesPerSec;
    var last := LastFile(c);
    assert Assembled(c, src, length, picks) == Start(p => RandomFile(c, p), src, target, picks, last);
    if last.None? {
      return Failed;
    }
    var file := last.value;
    var stream: seq<byte> := [];
    var files: seq<string> := [];
    while |stream| < target
      invariant |files| <= |picks|
      invariant Run(p => RandomFile(c, p), src, target, picks, file, stream, files)
             == Assembled(c, src, length, picks)
      decreases |picks| - |files|
    {
      var start, end := GetForecastTimes(src.cueFile(CueKey(file)));
      var faded := src.transcode(src.recording(ArchiveKey(file)), FadeArgs(start, end, FadeSecs));
      if |files| == |picks| {
        return OutOfPicks;
      }
      var next := RandomFile(c, picks[|files|]);
      if next.None? {
        return Failed;
      }
      stream := stream + faded;
      files := files + [file];
      file := next.value;
    }
    outcome := Uploaded(stream, files);
  }

  /** After the first recording, recording `i` is the random pick of iteration `i - 1`. */
  predicate RandomChain(random: Picks -> Option<string>, picks: seq<Picks>, files: seq<string>) {
    |files| <= |picks| + 1 &&
    forall i :: 1 <= i < |files| ==> random(picks[i - 1]) == Some(files[i])
  }

  /** The recordings used: first the latest one, then one random pick per iteration. */
  predicate ChosenFiles(c: Catalog, picks: seq<Picks>, files: seq<string>) {
    (files != [] ==> LastFile(c) == Some(files[0])) &&
    RandomChain(p => RandomFile(c, p), picks, files)
  }

  /** The loop stops at the first recording that brings the stream to its target. */
  predicate StopsAtTarget(src: Sources, files: seq<string>, target: int) {
    && |Concat(src, files)| >= target
    && forall k :: 0 <= k < |files| ==> |Concat(src, files[..k])| < target
  }

  lemma RandomChainExtend(random: Picks -> Option<string>, picks: seq<Picks>, files: seq<string>, next: string)
    requires RandomChain(random, picks, files) && 0 < |files| <= |picks|
    requires random(picks[|files| - 1]) == Some(next)
    ensures RandomChain(random, picks, files + [next])
  {
    var files' := files + [next];
    forall i | 1 <= i < |files'|
      ensures random(picks[i - 1]) == Some(files'[i])
    {
      if i < |files| { assert files'[i] == files[i]; }
    }
  }

  /** One more iteration keeps the loop's invariant: the stream is the
      segments so far, and every earlier prefix fell short of the target. */
  lemma AppendKeepsInvariant(src: Sources, target: int, file: string, stream: seq<byte>, files: seq<string>)
    requires stream == Concat(src, files)
    requires forall k :: 0 <= k < |files| ==> |Concat(src, files[..k])| < target
    requires |stream| < target
    ensures stream + Segment(src, file) == Concat(src, files + [file])
    ensures forall k :: 0 <= k < |files + [file]| ==> |Concat(src, (files + [file])[..k])| < target
  {
    var files' := files + [file];
    assert files'[..|files'| - 1] == files;
    forall k | 0 <= k < |files'|
      ensures |Concat(src, files'[..k])| < target
    {
      if k == |files| {
        assert files'[..k] == files;
      } else {
        assert files'[..k] == files[..k];
      }
    }
  }

  lemma PrefixOfLonger(longer: seq<string>, files: seq<string>, file: string)
    requires |longer| > |files| + 1
    requires longer[..|files| + 2][..|files| + 1] == files + [file]
    ensures longer[..|files| + 1] == files + [file]
  {
    assert longer[..|files| + 2][..|files| + 1] == longer[..|files| + 1];
  }

  lemma {:induction false} RunUploaded(random: Picks -> Option<string>, src: Sources, target: int,
                                      picks: seq<Picks>, file: string, stream: seq<byte>, files: seq<string>)
    requires |files| <= |picks|
    requires stream == Concat(src, files)
    requires forall k :: 0 <= k < |files| ==> |Concat(src, files[..k])| < target
    requires RandomChain(random, picks, files + [file])
    ensures var a := Run(random, src, target, picks, file, stream, files);
            a.Uploaded? ==>
              && a.stream == Concat(src, a.files)
              && StopsAtTarget(src, a.files, target)
              && RandomChain(random, picks, a.files)
              && (|a.files| > |files| ==> a.files[..|files| + 1] == files + [file])
              && (|a.files| <= |files| ==> a.files == files)
    decreases |picks| - |files|
  {
    if |stream| >= target {
      assert (files + [file])[..|files|] == files;
    } else if |files| < |picks| && random(picks[|files|]).Some? {
      var next := random(picks[|files|]).value;
      AppendKeepsInvariant(src, target, file, stream, files);
      RandomChainExtend(random, picks, files + [file], next);
      RunUploaded(random, src, target, picks, next, stream + Segment(src, file), files + [file]);
      var a := Run(random, src, target, picks, next, stream + Segment(src, file), files + [file]);
      if a.Uploaded? && |a.files| > |files| + 1 {
        PrefixOfLonger(a.files, files, file);
      }
    }
  }

  lemma StartUploaded(random: Picks -> Option<string>, src: Sources, target: int, picks: seq<Picks>,
                      first: Option<string>)
    ensures var a := Start(random, src, target, picks, first);
            a.Uploaded? ==>
              && a.stream == Concat(src, a.files)
              && StopsAtTarget(src, a.files, target)
              && (a.files != [] ==> first == Some(a.files[0]))
              && RandomChain(random, picks, a.files)
              && (a.files == [] <==> target <= 0)
  {
    if first.Some? {
      var f := first.value;
      var a := Run(random, src, target, picks, f, [], []);
      assert [] + [f] == [f];
      RunUploaded(random, src, target, picks, f, [], []);
      if a.Uploaded? {
        FirstOfRun(src, target, f, a.files);
        if target <= 0 {
          assert a == Uploaded([], []);
        }
      }
    }
  }

  /** The files of a run started on `f` with nothing appended begin with `f`,
      and there are some exactly when the target is positive. */
  lemma FirstOfRun(src: Sources, target: int, f: string, files: seq<string>)
    requires StopsAtTarget(src, files, target)
    requires |files| > 0 ==> files[..1] == [f]
    ensures files != [] ==> files[0] == f
    ensures files == [] ==> target <= 0
    ensures files != [] ==> target > 0
  {
    if files != [] {
      assert files[..1][0] == files[0];
      assert files[..0] == [];
      assert |Concat(src, files[..0])| < target;
    } else {
      assert Concat(src, files) == [];
    }
  }

  /** An uploaded stream is the whole segments of its recordings in order, the
      first recording is the latest one and the others are random catalogue
      picks, and the loop stopped at the first point the target was reached. */
  lemma UploadedStreamIsWholeSegments(c: Catalog, src: Sources, length: Option<int>, picks: seq<Picks>)
    ensures var a := Assembled(c, src, length, picks);
            a.Uploaded? ==>
              && a.stream == Concat(src, a.files)
              && StopsAtTarget(src, a.files, Target(length))
              && ChosenFiles(c, picks, a.files)
              && (a.files == [] <==> Target(length) <= 0)
  {
    StartUploaded(p => RandomFile(c, p), src, Target(length), picks, LastFile(c));
  }

  /** Without a latest recording nothing is assembled or uploaded. */
  lemma EmptyCatalogFails(src: Sources, length: Option<int>, picks: seq<Picks>)
    ensures Assembled([], src, length, picks) == Failed
  {
  }

  /** Every random pick names a catalogued recording. */
  lemma ChosenFilesAreCatalogued(c: Catalog, picks: seq<Picks>, files: seq<string>, i: nat)
    requires ChosenFiles(c, picks, files) && i < |files|
    ensures exists l :: Catalogued(c, l) && files[i] == FileName(l)
  {
    if i == 0 {
      var l := LastEntry(c).value;
      LastEntryIsLatest(c);
      assert Catalogued(c, l);
    } else {
      assert RandomFile(c, picks[i - 1]) == Some(files[i]);
      var l := RandomEntry(c, picks[i - 1]).value;
      RandomEntryIsCatalogued(c, picks[i - 1]);
      assert Catalogued(c, l);
    }
  }

  lemma {:induction false} ConcatOfEqualSegments(src: Sources, files: seq<string>, size: nat)
    requires forall f :: |Segment(src, f)| == size
    ensures |Concat(src, files)| == |files| * size
  {
    if files != [] {
      var init := files[..|files| - 1];
      ConcatOfEqualSegments(src, init, size);
      assert |Concat(src, files)| == |Concat(src, init)| + |Segment(src, files[|files| - 1])|;
      MulSucc(|init|, size);
    }
  }

  lemma MulSucc(n: nat, size: nat)
    ensures (n + 1) * size == n * size + size
  {
  }

  /** The loop uploads when the picks cannot run out first: every pick
      resolves, every segment holds at least `m` bytes, and the picks left
      cover what the stream still lacks. */
  lemma {:induction false} RunUploads(random: Picks -> Option<string>, src: Sources, target: int,
                                     picks: seq<Picks>, file: string, stream: seq<byte>, files: seq<string>, m: nat)
    requires |files| <= |picks|
    requires forall i :: 0 <= i < |picks| ==> random(picks[i]).Some?
    requires forall f :: |Segment(src, f)| >= m
    requires target <= |stream| + (|picks| - |files|) * m
    ensures Run(random, src, target, picks, file, stream, files).Uploaded?
    decreases |picks| - |files|
  {
    if |stream| < target {
      var next := random(picks[|files|]).value;
      var stream' := stream + Segment(src, file);
      MulSucc(|picks| - (|files| + 1), m);
      RunUploads(random, src, target, picks, next, stream', files + [file], m);
    }
  }

  /** A catalog with a latest recording uploads once the supplied picks all
      resolve and, at `m` bytes or more per segment, cover the target. */
  lemma AssembledUploads(c: Catalog, src: Sources, length: Option<int>, picks: seq<Picks>, m: nat)
    requires LastFile(c).Some?
    requires forall i :: 0 <= i < |picks| ==> RandomFile(c, picks[i]).Some?
    requires forall f :: |Segment(src, f)| >= m
    requires Target(length) <= |picks| * m
    ensures Assembled(c, src, length, picks).Uploaded?
  {
    RunUploads(p => RandomFile(c, p), src, Target(length), picks, LastFile(c).value, [], [], m);
  }

  /** With every segment exactly 60 seconds of stream and three resolving
      picks, a 125-second stream is uploaded and holds exactly three
      recordings, the last of which overshoots. */
  lemma SixtySecondSegmentsFor125Seconds(c: Catalog, src: Sources, picks: seq<Picks>)
    requires LastFile(c).Some?
    requires forall i :: 0 <= i < |picks| ==> RandomFile(c, picks[i]).Some?
    requires |picks| >= 3
    requires forall f :: |Segment(src, f)| == 60 * BytesPerSec
    ensures var a := Assembled(c, src, Some(125), picks);
            a.Uploaded? && |a.files| == 3 && |a.stream| == 180 * BytesPerSec
  {
    var a := Assembled(c, src, Some(125), picks);
    AssembledUploads(c, src, Some(125), picks, 60 * BytesPerSec);
    UploadedStreamIsWholeSegments(c, src, Some(125), picks);
    var n := |a.files|;
    ConcatOfEqualSegments(src, a.files, 60 * BytesPerSec);
    ConcatOfEqualSegments(src, a.files[..n - 1], 60 * BytesPerSec);
    assert (n - 1) * (60 * 8192) < 125 * 8192 <= n * (60 * 8192);
  }
}
