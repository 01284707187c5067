/**
 * Finding cue files without a usable keyword (tools/find-missing-cues.py):
 * a cue file counts as usable when its `cues` map has a key for one of the
 * start or end keywords; the tool reports the recording name of every
 * recent cue file that does not.
 */
module MissingCues {
  import opened Wrappers
  import opened PyStr
  import opened Boundaries
  import opened ObjectKeys

  /** The keywords `check_for_keywords` looks for, in order. "bulletin" is
      not among them. */
  const Keywords: seq<string> := ["shipping", "forecast", "bbc", "radio"]

  /** The `for keyword in keywords` scan with its early `return True`. */
  function AnyKeyword(keywords: seq<string>, cues: CueMap): (found: bool)
    ensures found <==> exists i :: 0 <= i < |keywords| && keywords[i] in cues
  {
    if keywords == [] then false
    else if keywords[0] in cues then true
    else
      var rest := AnyKeyword(keywords[1..], cues);
      assert rest <==> exists i :: 1 <= i < |keywords| && keywords[i] in cues by {
        if rest {
          var j :| 0 <= j < |keywords[1..]| && keywords[1..][j] in cues;
          assert keywords[j + 1] in cues;
        }
        if exists i :: 1 <= i < |keywords| && keywords[i] in cues {
          var i :| 1 <= i < |keywords| && keywords[i] in cues;
          assert keywords[1..][i - 1] in cues;
        }
      }
      rest
  }

  /** `check_for_keywords`: `False` without a `cues` field; otherwise whether
      one of the keywords is a key of the cue map. */
  function CheckForKeywords(content: CueFile): (ok: bool)
    ensures ok <==> content.cues.Some? && exists k :: k in Keywords && k in content.cues.value
  {
    match content.cues
    case None => false
    case Some(cues) =>
      var found := AnyKeyword(Keywords, cues);
      assert found <==> exists k :: k in Keywords && k in cues by {
        if exists k :: k in Keywords && k in cues {
          var k :| k in Keywords && k in cues;
          var i :| 0 <= i < |Keywords| && Keywords[i] == k;
        }
      }
      found
  }

  /** A cue map whose only trigger is "bulletin" is not usable, and a
      keyword with no cue times at all still is: only the key counts. */
  lemma KeyPresenceAloneCounts(times: seq<real>)
    ensures !CheckForKeywords(CueFile(Some(map["bulletin" := times]), None))
    ensures CheckForKeywords(CueFile(Some(map["radio" := []]), None))
    ensures !CheckForKeywords(CueFile(None, Some(0.0)))
  {
    assert "radio" in Keywords;
  }

  /** Whether a listed object is reported: a `.json` key modified at or
      after `startDate` whose content fails the keyword check. */
  predicate Missing(obj: Listed, startDate: int) {
    EndsWith(obj.key, ".json") && obj.lastModified >= startDate && !CheckForKeywords(obj.content)
  }

  /** The names printed for `objects`, in listing order. */
  function MissingReport(objects: seq<Listed>, startDate: int): seq<string>
    decreases |objects|
  {
    if objects == [] then []
    else
      var last := objects[|objects| - 1];
      MissingReport(objects[..|objects| - 1], startDate)
        + if Missing(last, startDate) then [ReportedName(last.key)] else []
  }

  /** `main`'s loop over the listing. */
  method FindMissingCues(objects: seq<Listed>, startDate: int) returns (report: seq<string>)
    ensures report == MissingReport(objects, startDate)
  {
    report := [];
    for i := 0 to |objects|
      invariant report == MissingReport(objects[..i], startDate)
    {
      assert objects[..i + 1][..i] == objects[..i];
      var obj := objects[i];
      if EndsWith(obj.key, ".json") && obj.lastModified >= startDate {
        if !CheckForKeywords(obj.content) {
          report := report + [ReportedName(obj.key)];
        }
      }
    }
    assert objects[..|objects|] == objects;
  }

  /** A name is reported exactly when some recent cue file of that name
      lacks every keyword. */
  lemma {:induction false} ReportedExactlyTheMissing(objects: seq<Listed>, startDate: int, name: string)
    ensures name in MissingReport(objects, startDate) <==>
              exists i :: 0 <= i < |objects| && Missing(objects[i], startDate) && ReportedName(objects[i].key) == name
    decreases |objects|
  {
    if objects != [] {
      var init := objects[..|objects| - 1];
      var last := objects[|objects| - 1];
      ReportedExactlyTheMissing(init, startDate, name);
      if exists i :: 0 <= i < |init| && Missing(init[i], startDate) && ReportedName(init[i].key) == name {
        var i :| 0 <= i < |init| && Missing(init[i], startDate) && ReportedName(init[i].key) == name;
        assert objects[i] == init[i];
      }
      if exists i :: 0 <= i < |objects| && Missing(objects[i], startDate) && ReportedName(objects[i].key) == name {
        var i :| 0 <= i < |objects| && Missing(objects[i], startDate) && ReportedName(objects[i].key) == name;
        if i < |init| {
          assert init[i] == objects[i];
        }
      }
    }
  }

  /** The cue file of a recording is reported under the recording's own name. */
  lemma MissingCueFileNamesItsRecording(name: string, modified: int, content: CueFile, startDate: int)
    requires modified >= startDate && !CheckForKeywords(content)
    ensures MissingReport([Listed(CueKey(name), modified, content)], startDate) == [name]
  {
    ReportedNameOfCueKey(name);
    var key := CueKey(name);
    assert key[|key| - 5..] == ".json";
  }
}
