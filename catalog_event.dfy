/**
 * Cataloguing one transcribed recording (`handle_event` in
 * catalog/catalog_forecast.py): a chain of guards, each of which returns
 * early, then the nested append and the upload of the new catalog.
 */
module CatalogEvent {
  import opened Wrappers
  import opened Boundaries
  import opened Catalog
  import opened PyStr

  /** The event's `cues` entry: missing, JSON `null`, or a cue map. */
  datatype CueField = Missing | Null | Given(cues: CueMap)

  /** How the handler ends. `Crashed` is the `"cues" not in event` branch,
      which names variables that do not exist. */
  datatype Outcome =
    | Crashed
    | NoCatalog
    | NoStartCue
    | BadName
    | WrongTime(timing: string)
    | Uploaded(catalog: Catalog)

  /** `if cues and "shipping" not in cues and "forecast" not in cues`. */
  predicate LacksStartCue(cues: CueField) {
    cues.Given? && cues.cues != map[] && "shipping" !in cues.cues && "forecast" !in cues.cues
  }

  /** `handle_event` for the recording `file`, with `catalog` the downloaded
      catalog (`None` when it cannot be read). */
  method HandleEvent(file: string, cues: CueField, catalog: Option<Catalog>) returns (outcome: Outcome)
    ensures outcome == Catalogue(file, cues, catalog)
  {
    if cues.Missing? {
      return Crashed;
    }
    if catalog.None? || catalog.value == [] {
      return NoCatalog;
    }
    if LacksStartCue(cues) {
      return NoStartCue;
    }
    var m := MatchRecordingName(file);
    if m.None? {
      return BadName;
    }
    var l := m.value;
    if l.timing !in BroadcastTimes {
      return WrongTime(l.timing);
    }
    var c := Appended(catalog.value, l);
    outcome := Uploaded(c);
  }

  /** The outcome of `handle_event`, guard by guard: the same chain as the
      method above, written as an expression so that lemmas can state what
      each guard decides. */
  function Catalogue(file: string, cues: CueField, catalog: Option<Catalog>): Outcome {
    if cues.Missing? then Crashed
    else if catalog.None? || catalog.value == [] then NoCatalog
    else if LacksStartCue(cues) then NoStartCue
    else match MatchRecordingName(file)
      case None => BadName
      case Some(l) => if l.timing !in BroadcastTimes then WrongTime(l.timing) else Uploaded(Appended(catalog.value, l))
  }

  /** The catalog is uploaded exactly when every guard passes, and what is
      uploaded is the old catalog with the recording's timing appended to its
      day: every other day keeps its list. */
  lemma UploadOnlyAfterAppend(file: string, cues: CueField, catalog: Option<Catalog>)
    ensures Catalogue(file, cues, catalog).Uploaded? <==>
              && !cues.Missing?
              && catalog.Some? && catalog.value != []
              && !LacksStartCue(cues)
              && MatchRecordingName(file).Some?
              && MatchRecordingName(file).value.timing in BroadcastTimes
    ensures Catalogue(file, cues, catalog).Uploaded? ==>
              var l := MatchRecordingName(file).value;
              var c := Catalogue(file, cues, catalog).catalog;
              forall y, m, d :: Timings(c, y, m, d)
                == Timings(catalog.value, y, m, d) + if (y, m, d) == (l.year, l.month, l.day) then [l.timing] else []
  {
    if Catalogue(file, cues, catalog).Uploaded? {
      var l := MatchRecordingName(file).value;
      forall y, m, d
        ensures Timings(Appended(catalog.value, l), y, m, d)
             == Timings(catalog.value, y, m, d) + if (y, m, d) == (l.year, l.month, l.day) then [l.timing] else []
      {
        TimingsAfterAppend(catalog.value, l, y, m, d);
      }
    }
  }

  /** A missing or empty catalog aborts whatever the recording. */
  lemma NoCatalogNoUpload(file: string, cues: CueField, catalog: Option<Catalog>)
    requires !cues.Missing?
    requires catalog.None? || catalog.value == []
    ensures Catalogue(file, cues, catalog) == NoCatalog
  {
  }

  /** A matching name with a broadcast time is catalogued under its own groups. */
  lemma WellFormedNameIsCatalogued(c: Catalog, cues: CueField, l: Location)
    requires !cues.Missing? && c != [] && !LacksStartCue(cues)
    requires WellFormed(l) && IsWordChar(l.year[0]) && l.timing in BroadcastTimes
    ensures Catalogue(FileName(l), cues, Some(c)) == Uploaded(Appended(c, l))
    ensures Catalogued(Appended(c, l), l)
  {
    RecordingNameRoundTrip(l);
    TimingsAfterAppend(c, l, l.year, l.month, l.day);
  }

  /** Only a non-empty cue map lacking both start triggers blocks the entry:
      a `null` or empty one, or one with either trigger, does not. */
  lemma StartCueGuard(file: string, cues: CueField, c: Catalog)
    requires c != [] && !cues.Missing?
    ensures Catalogue(file, cues, Some(c)) == NoStartCue <==>
              cues.Given? && cues.cues != map[] && "shipping" !in cues.cues && "forecast" !in cues.cues
    ensures Catalogue(file, Null, Some(c)) == Catalogue(file, Given(map[]), Some(c))
  {
  }
}
