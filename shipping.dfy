/**
 * The first, single-keyword detector (detection/detect_forecast.py): reads
 * the decoder in `sample_rate`-byte windows and records the offset of each
 * window whose result mentions "shipping", once per utterance.
 */
module ShippingScan {
  import opened PyStr
  import opened Detector

  /** The read size, and the divisor the script turns offsets into times with. */
  const ReadSize: nat := SampleRate

  /** Offset `bytes` divided by `unit`. */
  function At(bytes: nat, unit: nat): real
    requires unit > 0
  {
    bytes as real / unit as real
  }

  lemma AtMonotone(a: nat, b: nat, unit: nat)
    requires unit > 0 && a <= b
    ensures At(a, unit) <= At(b, unit)
    ensures a < b ==> At(a, unit) < At(b, unit)
  {
    var u := unit as real;
    assert At(b, unit) - At(a, unit) == (b - a) as real / u;
  }

  /** Whether the window at hand records a detection: its result mentions
      "shipping" and "shipping" was not yet found in this utterance. */
  predicate Hit(w: Window, seen: bool) {
    Contains(w.result, "shipping") && !seen
  }

  /** `seen` after the window: cleared on a complete result, set by a hit. */
  function SeenAfter(w: Window, seen: bool): bool {
    if w.complete then false else seen || Hit(w, seen)
  }

  /** The byte offsets the loop records from offset `bytesRead` on; `seen`
      says "shipping" was already found in this utterance. */
  function Offsets(ws: seq<Window>, bytesRead: nat, seen: bool): seq<nat>
    decreases |ws|
  {
    if ws == [] || ws[0].len == 0 then []
    else
      (if Hit(ws[0], seen) then [bytesRead] else [])
        + Offsets(ws[1..], bytesRead + ws[0].len, SeenAfter(ws[0], seen))
  }

  /** Each offset divided by `unit`, in order. */
  function Times(offsets: seq<nat>, unit: nat): (r: seq<real>)
    requires unit > 0
    ensures |r| == |offsets| && forall i :: 0 <= i < |r| ==> r[i] == At(offsets[i], unit)
    decreases |offsets|
  {
    if offsets == [] then [] else [At(offsets[0], unit)] + Times(offsets[1..], unit)
  }

  /** The detections from offset `bytesRead` on, divided by `unit`. */
  function Found(ws: seq<Window>, unit: nat, bytesRead: nat, seen: bool): seq<real>
    requires unit > 0
  {
    Times(Offsets(ws, bytesRead, seen), unit)
  }

  /** The script as written: offsets divided by the sample rate. */
  function FoundAsWritten(ws: seq<Window>): seq<real> {
    Found(ws, ReadSize, 0, false)
  }

  /** Offsets divided by the bytes per second of the decoded audio, as the
      later detectors do: times in seconds. */
  function FoundSeconds(ws: seq<Window>): seq<real> {
    Found(ws, BytesPerSecond, 0, false)
  }

  /** The script's loop, with the recogniser's answers supplied as `ws`. */
  method DetectShipping(ws: seq<Window>) returns (found: seq<real>)
    ensures found == FoundAsWritten(ws)
  {
    found := [];
    ghost var recorded: seq<nat> := [];
    ghost var whole := Offsets(ws, 0, false);
    var bytesRead: nat := 0;
    var seen := false;
    var k := 0;
    assert ws[0..] == ws;
    while k < |ws|
      invariant k <= |ws|
      invariant recorded + Offsets(ws[k..], bytesRead, seen) == whole
      invariant found == Times(recorded, ReadSize)
    {
      var w := ws[k];
      if w.len == 0 {
        assert Offsets(ws[k..], bytesRead, seen) == [];
        assert recorded + [] == recorded;
        break;
      }
      OffsetsStep(ws, k, bytesRead, seen);
      ghost var rest := Offsets(ws[k + 1..], bytesRead + w.len, SeenAfter(w, seen));
      ghost var head: seq<nat> := if Hit(w, seen) then [bytesRead] else [];
      ghost var before := recorded;
      if Contains(w.result, "shipping") && !seen {
        TimesSnoc(recorded, bytesRead, ReadSize);
        found := found + [At(bytesRead, ReadSize)];
        recorded := recorded + [bytesRead];
        seen := true;
      }
      if w.complete {
        seen := false;
      }
      bytesRead := bytesRead + w.len;
      k := k + 1;
      assert recorded == before + head;
      assert Offsets(ws[k..], bytesRead, seen) == rest;
      AppendAssoc(before, head, rest);
    }
    if k == |ws| {
      assert Offsets(ws[k..], bytesRead, seen) == [];
      assert recorded + [] == recorded;
    }
  }

  lemma TimesSnoc(offsets: seq<nat>, b: nat, unit: nat)
    requires unit > 0
    ensures Times(offsets + [b], unit) == Times(offsets, unit) + [At(b, unit)]
  {
    var l := Times(offsets + [b], unit);
    var r := Times(offsets, unit) + [At(b, unit)];
    assert |l| == |r|;
    forall i | 0 <= i < |l|
      ensures l[i] == r[i]
    {
      if i < |offsets| {
        assert (offsets + [b])[i] == offsets[i];
      }
    }
  }

  lemma AppendAssoc(a: seq<nat>, b: seq<nat>, c: seq<nat>)
    ensures (a + b) + c == a + (b + c)
  {
  }

  /** One iteration of the loop, on the window at index `k`. */
  lemma OffsetsStep(ws: seq<Window>, k: nat, bytesRead: nat, seen: bool)
    requires k < |ws| && ws[k].len > 0
    ensures Offsets(ws[k..], bytesRead, seen)
              == (if Hit(ws[k], seen) then [bytesRead] else [])
                 + Offsets(ws[k + 1..], bytesRead + ws[k].len, SeenAfter(ws[k], seen))
  {
    assert ws[k..][1..] == ws[k + 1..];
  }

  /** The bytes consumed are the first window's and then the rest's. */
  lemma TotalStep(ws: seq<Window>)
    requires ws != [] && ws[0].len > 0
    ensures TotalBytes(Processed(ws)) == ws[0].len + TotalBytes(Processed(ws[1..]))
  {
    assert ([ws[0]] + Processed(ws[1..]))[1..] == Processed(ws[1..]);
  }

  /** Recorded offsets lie in the consumed audio: at or after `bytesRead`
      and before its end. */
  lemma {:induction false} OffsetsWithinAudio(ws: seq<Window>, bytesRead: nat, seen: bool)
    ensures forall b :: b in Offsets(ws, bytesRead, seen) ==>
              bytesRead <= b < bytesRead + TotalBytes(Processed(ws))
    decreases |ws|
  {
    if ws != [] && ws[0].len > 0 {
      OffsetsWithinAudio(ws[1..], bytesRead + ws[0].len, SeenAfter(ws[0], seen));
      TotalStep(ws);
    }
  }

  predicate IncreasingNat(xs: seq<nat>) {
    forall i, j :: 0 <= i < j < |xs| ==> xs[i] < xs[j]
  }

  predicate Increasing(xs: seq<real>) {
    forall i, j :: 0 <= i < j < |xs| ==> xs[i] < xs[j]
  }

  /** Recorded offsets are strictly increasing. */
  lemma {:induction false} OffsetsIncreasing(ws: seq<Window>, bytesRead: nat, seen: bool)
    ensures IncreasingNat(Offsets(ws, bytesRead, seen))
    decreases |ws|
  {
    if ws != [] && ws[0].len > 0 {
      var next := bytesRead + ws[0].len;
      var rest := Offsets(ws[1..], next, SeenAfter(ws[0], seen));
      OffsetsIncreasing(ws[1..], next, SeenAfter(ws[0], seen));
      OffsetsWithinAudio(ws[1..], next, SeenAfter(ws[0], seen));
      forall j | 0 <= j < |rest|
        ensures bytesRead < rest[j]
      {
        assert rest[j] in rest;
      }
    }
  }

  /** Detections lie in the consumed audio: at or after `bytesRead` and
      before its end. */
  lemma FoundWithinAudio(ws: seq<Window>, unit: nat, bytesRead: nat, seen: bool)
    requires unit > 0
    ensures forall x :: x in Found(ws, unit, bytesRead, seen) ==>
              At(bytesRead, unit) <= x < At(bytesRead + TotalBytes(Processed(ws)), unit)
  {
    var offsets := Offsets(ws, bytesRead, seen);
    var f := Found(ws, unit, bytesRead, seen);
    var end := bytesRead + TotalBytes(Processed(ws));
    OffsetsWithinAudio(ws, bytesRead, seen);
    forall x | x in f
      ensures At(bytesRead, unit) <= x < At(end, unit)
    {
      var i :| 0 <= i < |f| && f[i] == x;
      assert offsets[i] in offsets;
      AtMonotone(bytesRead, offsets[i], unit);
      AtMonotone(offsets[i], end, unit);
    }
  }

  /** Detections are strictly increasing. */
  lemma FoundIncreasing(ws: seq<Window>, unit: nat, bytesRead: nat, seen: bool)
    requires unit > 0
    ensures Increasing(Found(ws, unit, bytesRead, seen))
  {
    var offsets := Offsets(ws, bytesRead, seen);
    var f := Found(ws, unit, bytesRead, seen);
    OffsetsIncreasing(ws, bytesRead, seen);
    forall i, j | 0 <= i < j < |f|
      ensures f[i] < f[j]
    {
      AtMonotone(offsets[i], offsets[j], unit);
    }
  }

  /** Within one utterance there is at most one detection, and none once
      "shipping" was already found in it. */
  lemma {:induction false} AtMostOncePerUtterance(ws: seq<Window>, unit: nat, bytesRead: nat, seen: bool)
    requires unit > 0
    requires forall k :: 0 <= k < |ws| - 1 ==> !ws[k].complete
    ensures |Found(ws, unit, bytesRead, seen)| <= if seen then 0 else 1
  {
    OffsetsOncePerUtterance(ws, bytesRead, seen);
  }

  lemma {:induction false} OffsetsOncePerUtterance(ws: seq<Window>, bytesRead: nat, seen: bool)
    requires forall k :: 0 <= k < |ws| - 1 ==> !ws[k].complete
    ensures |Offsets(ws, bytesRead, seen)| <= if seen then 0 else 1
    decreases |ws|
  {
    if ws != [] && ws[0].len > 0 {
      var seen' := SeenAfter(ws[0], seen);
      if |ws| == 1 {
        assert Offsets(ws[1..], bytesRead + ws[0].len, seen') == [];
      } else {
        OffsetsOncePerUtterance(ws[1..], bytesRead + ws[0].len, seen');
      }
    }
  }

  /** Dividing by half the bytes per second doubles every time. */
  lemma AsWrittenDoublesSeconds(ws: seq<Window>, bytesRead: nat, seen: bool)
    ensures var a := Found(ws, ReadSize, bytesRead, seen);
            var s := Found(ws, BytesPerSecond, bytesRead, seen);
            |a| == |s| && forall i :: 0 <= i < |a| ==> a[i] == 2.0 * s[i]
  {
    var offsets := Offsets(ws, bytesRead, seen);
    forall i | 0 <= i < |offsets|
      ensures At(offsets[i], ReadSize) == 2.0 * At(offsets[i], BytesPerSecond)
    {
      assert ReadSize == 16000 && BytesPerSecond == 32000;
    }
  }

  /** "shipping" heard in the window that starts one second into the audio
      is reported at 2.0 by the script, and at 1.0 in seconds. */
  lemma OneSecondReportedAsTwo()
    ensures FoundAsWritten([Window(16000, false, "", ""), Window(16000, true, "", ""), Window(16000, false, "shipping", "")]) == [2.0]
    ensures FoundSeconds([Window(16000, false, "", ""), Window(16000, true, "", ""), Window(16000, false, "shipping", "")]) == [1.0]
  {
    var ws := [Window(16000, false, "", ""), Window(16000, true, "", ""), Window(16000, false, "shipping", "")];
    assert !Contains(ws[0].result, "shipping");
    assert ws[1..][0] == ws[1] && !Contains(ws[1].result, "shipping");
    assert Contains(ws[2].result, "shipping");
    assert ws[1..][1..] == [ws[2]] && [ws[2]][1..] == [];
    assert Offsets(ws, 0, false) == [32000];
  }

  /** In seconds, the detections are strictly increasing times within the
      decoded audio. */
  lemma FoundSecondsWithinAudio(ws: seq<Window>)
    ensures var f := FoundSeconds(ws);
            && Increasing(f)
            && forall x :: x in f ==> 0.0 <= x < Offset(TotalBytes(Processed(ws)))
  {
    FoundIncreasing(ws, BytesPerSecond, 0, false);
    SecondsBounded(ws);
  }

  lemma SecondsBounded(ws: seq<Window>)
    ensures forall x :: x in FoundSeconds(ws) ==> 0.0 <= x < Offset(TotalBytes(Processed(ws)))
  {
    var f := FoundSeconds(ws);
    var offsets := Offsets(ws, 0, false);
    var end := TotalBytes(Processed(ws));
    OffsetsWithinAudio(ws, 0, false);
    forall x | x in f
      ensures 0.0 <= x < Offset(end)
    {
      var i :| 0 <= i < |f| && f[i] == x;
      assert offsets[i] in offsets;
      AtMonotone(offsets[i], end, BytesPerSecond);
    }
  }
}
