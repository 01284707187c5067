/**
 * Rebuilding the catalog from the archive listing (tools/build-catalog.py):
 * every listed key that matches the archive pattern, is not excluded and
 * starts at a broadcast time is appended, in listing order, to a catalog
 * that starts empty.
 */
module BuildCatalog {
  import opened Wrappers
  import opened PyStr
  import opened Catalog

  /** The one object under `archive/` that is not a recording. */
  const CatalogKey: string := "archive/catalog.json"

  /** A diagnostic written for a skipped key. */
  datatype Note = NoMatch(key: string) | Excluded(key: string) | WrongTime(key: string)

  /** `{line.strip() for line in exclude_file}`. */
  function ExcludeSet(lines: seq<string>): set<string> {
    set i | 0 <= i < |lines| :: Strip(lines[i])
  }

  /** The location a key contributes, or the note it gets (none for the
      catalog object itself). */
  function Classify(exclude: set<string>, key: string): Result
  {
    match MatchArchiveKey(key)
    case None => if key != CatalogKey then Skipped([NoMatch(key)]) else Skipped([])
    case Some(l) =>
      if key in exclude then Skipped([Excluded(key)])
      else if l.timing !in BroadcastTimes then Skipped([WrongTime(key)])
      else Accepted(l)
  }

  datatype Result = Accepted(location: Location) | Skipped(notes: seq<Note>)

  /** The catalog built from the first keys of the listing. */
  function Build(exclude: set<string>, keys: seq<string>): Catalog
    decreases |keys|
  {
    if keys == [] then []
    else
      var c := Build(exclude, keys[..|keys| - 1]);
      match Classify(exclude, keys[|keys| - 1])
      case Accepted(l) => Appended(c, l)
      case Skipped(_) => c
  }

  /** The diagnostics for the listing, in order. */
  function Notes(exclude: set<string>, keys: seq<string>): seq<Note>
    decreases |keys|
  {
    if keys == [] then []
    else
      Notes(exclude, keys[..|keys| - 1]) +
      match Classify(exclude, keys[|keys| - 1])
      case Accepted(_) => []
      case Skipped(notes) => notes
  }

  /** Reading the exclude file. */
  method ReadExclude(lines: seq<string>) returns (exclude: set<string>)
    ensures exclude == ExcludeSet(lines)
  {
    exclude := {};
    for i := 0 to |lines|
      invariant forall x :: x in exclude <==> exists j :: 0 <= j < i && x == Strip(lines[j])
    {
      exclude := exclude + {Strip(lines[i])};
    }
  }

  /** The catalog and notes after one more key. */
  lemma BuildStep(exclude: set<string>, keys: seq<string>, i: nat)
    requires i < |keys|
    ensures Build(exclude, keys[..i + 1]) ==
              match Classify(exclude, keys[i])
              case Accepted(l) => Appended(Build(exclude, keys[..i]), l)
              case Skipped(_) => Build(exclude, keys[..i])
    ensures Notes(exclude, keys[..i + 1]) ==
              Notes(exclude, keys[..i]) +
              match Classify(exclude, keys[i])
              case Accepted(_) => []
              case Skipped(notes) => notes
  {
    assert keys[..i + 1][..i] == keys[..i];
  }

  /** The script's loop over the listing. */
  method BuildFromListing(excludeLines: seq<string>, keys: seq<string>) returns (catalog: Catalog, notes: seq<Note>)
    ensures catalog == Build(ExcludeSet(excludeLines), keys)
    ensures notes == Notes(ExcludeSet(excludeLines), keys)
  {
    var exclude := ReadExclude(excludeLines);
    catalog := [];
    notes := [];
    for i := 0 to |keys|
      invariant catalog == Build(exclude, keys[..i])
      invariant notes == Notes(exclude, keys[..i])
    {
      var key := keys[i];
      BuildStep(exclude, keys, i);
      var m := MatchArchiveKey(key);
      if m.None? {
        if key != CatalogKey {
          notes := notes + [NoMatch(key)];
        }
        continue;
      }
      if key in exclude {
        notes := notes + [Excluded(key)];
        continue;
      }
      var l := m.value;
      if l.timing !in BroadcastTimes {
        notes := notes + [WrongTime(key)];
        continue;
      }
      catalog := Appended(catalog, l);
    }
    assert keys[..|keys|] == keys;
  }

  /** The timings accepted keys contribute to one day, in listing order. */
  function DayTimings(exclude: set<string>, keys: seq<string>, year: string, month: string, day: string): seq<string>
    decreases |keys|
  {
    if keys == [] then []
    else
      DayTimings(exclude, keys[..|keys| - 1], year, month, day) +
      match Classify(exclude, keys[|keys| - 1])
      case Accepted(l) => if (l.year, l.month, l.day) == (year, month, day) then [l.timing] else []
      case Skipped(_) => []
  }

  /** Every day of the built catalog lists exactly the timings of the
      accepted keys for that day, in listing order and with duplicates. */
  lemma {:induction false} BuiltDaysAreAcceptedKeys(exclude: set<string>, keys: seq<string>,
                                                    year: string, month: string, day: string)
    ensures Timings(Build(exclude, keys), year, month, day) == DayTimings(exclude, keys, year, month, day)
    decreases |keys|
  {
    if keys != [] {
      var init := keys[..|keys| - 1];
      BuiltDaysAreAcceptedKeys(exclude, init, year, month, day);
      match Classify(exclude, keys[|keys| - 1])
      case Accepted(l) =>
        TimingsAfterAppend(Build(exclude, init), l, year, month, day);
      case Skipped(_) =>
    }
  }

  /** Skipped keys: excluded ones exactly as listed, wrong times, and
      non-matching keys other than the catalog object. */
  lemma ClassifyCases(exclude: set<string>, key: string)
    ensures Classify(exclude, key).Accepted? <==>
              MatchArchiveKey(key).Some? && key !in exclude && MatchArchiveKey(key).value.timing in BroadcastTimes
    ensures Classify(exclude, CatalogKey) == Skipped([])
    ensures key in exclude && Classify(exclude, key).Skipped? ==> |Classify(exclude, key).notes| <= 1
  {
    CatalogObjectDoesNotMatch();
  }

  /** Keys the exclude file lists, surrounded by whitespace or not, never
      reach the catalog. */
  lemma ExcludedKeyIsSkipped(excludeLines: seq<string>, i: nat)
    requires i < |excludeLines|
    ensures Classify(ExcludeSet(excludeLines), Strip(excludeLines[i])).Skipped?
  {
    assert Strip(excludeLines[i]) in ExcludeSet(excludeLines);
  }
}
