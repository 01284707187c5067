/**
 * The recording catalog: the nested JSON object `year -> month -> day ->
 * [timing]` that assemble/assemble_stream.py reads and that
 * catalog/catalog_forecast.py and tools/build-catalog.py extend.
 * JSON objects keep insertion order in Python, so each level is an
 * association list; `random.choice(list(x.keys()))` indexes its key order.
 */
module Catalog {
  import opened Wrappers
  import opened PyStr

  /** An insertion-ordered JSON object with string keys. */
  type Dict<V> = seq<(string, V)>

  type Days = Dict<seq<string>>
  type Months = Dict<Days>
  type Catalog = Dict<Months>

  /** One catalogued recording. */
  datatype Location = Location(year: string, month: string, day: string, timing: string)

  /** The broadcast times a recording may start at. */
  const BroadcastTimes: seq<string> := ["0048", "0520", "1201", "1754"]

  /** `list(d.keys())`. */
  function Keys<V>(d: Dict<V>): (r: seq<string>)
    ensures |r| == |d| && forall i :: 0 <= i < |d| ==> r[i] == d[i].0
  {
    if d == [] then [] else [d[0].0] + Keys(d[1..])
  }

  /** `d.get(k)`. */
  function Get<V>(d: Dict<V>, k: string): (r: Option<V>)
    ensures r.Some? <==> k in Keys(d)
    ensures r.Some? ==> (k, r.value) in d
  {
    if d == [] then None
    else if d[0].0 == k then Some(d[0].1)
    else Get(d[1..], k)
  }

  /** `d[k]` for a key that is present. */
  function Value<V>(d: Dict<V>, k: string): (r: V)
    requires k in Keys(d)
    ensures Get(d, k) == Some(r)
  {
    Get(d, k).value
  }

  /** `d[k] = v`: an existing key keeps its place, a new key goes last. */
  function Put<V>(d: Dict<V>, k: string, v: V): (r: Dict<V>)
  {
    if d == [] then [(k, v)]
    else if d[0].0 == k then [(k, v)] + d[1..]
    else [d[0]] + Put(d[1..], k, v)
  }

  lemma {:induction false} GetPut<V>(d: Dict<V>, k: string, v: V, k': string)
    ensures Get(Put(d, k, v), k') == if k' == k then Some(v) else Get(d, k')
  {
    if d != [] && d[0].0 != k {
      GetPut(d[1..], k, v, k');
    }
  }

  lemma {:induction false} KeysPut<V>(d: Dict<V>, k: string, v: V)
    ensures Keys(Put(d, k, v)) == if k in Keys(d) then Keys(d) else Keys(d) + [k]
  {
    if d != [] && d[0].0 != k {
      KeysPut(d[1..], k, v);
      assert Keys(d) == [d[0].0] + Keys(d[1..]);
    }
  }

  /** The timings listed for one day, `[]` when any level is missing. */
  function Timings(c: Catalog, year: string, month: string, day: string): seq<string> {
    var months := Get(c, year).GetOr([]);
    var days := Get(months, month).GetOr([]);
    Get(days, day).GetOr([])
  }

  /** `l` is catalogued: its timing is listed under its year, month and day. */
  predicate Catalogued(c: Catalog, l: Location) {
    l.timing in Timings(c, l.year, l.month, l.day)
  }

  /** `catalog.setdefault(year, {}).setdefault(month, {}).setdefault(day, []).append(timing)`. */
  function Appended(c: Catalog, l: Location): Catalog {
    var months := Get(c, l.year).GetOr([]);
    var days := Get(months, l.month).GetOr([]);
    var timings := Get(days, l.day).GetOr([]);
    Put(c, l.year, Put(months, l.month, Put(days, l.day, timings + [l.timing])))
  }

  /** Appending adds the timing at the end of its own day's list, duplicates
      included, and leaves every other day's list as it was. */
  lemma TimingsAfterAppend(c: Catalog, l: Location, year: string, month: string, day: string)
    ensures Timings(Appended(c, l), year, month, day)
         == Timings(c, year, month, day)
            + if (year, month, day) == (l.year, l.month, l.day) then [l.timing] else []
  {
    var months := Get(c, l.year).GetOr([]);
    var days := Get(months, l.month).GetOr([]);
    var timings := Get(days, l.day).GetOr([]);
    var days' := Put(days, l.day, timings + [l.timing]);
    var months' := Put(months, l.month, days');
    assert Appended(c, l) == Put(c, l.year, months');
    GetPut(c, l.year, months', year);
    if year == l.year {
      GetPut(months, l.month, days', month);
      if month == l.month {
        GetPut(days, l.day, timings + [l.timing], day);
      } else {
        assert Timings(Appended(c, l), year, month, day) == Timings(c, year, month, day);
      }
    } else {
      assert Get(Appended(c, l), year) == Get(c, year);
    }
  }

  /** Appending creates the year, month and day levels that are missing, each
      after the keys already at its level. */
  lemma AppendCreatesLevels(c: Catalog, l: Location)
    ensures Keys(Appended(c, l)) == Keys(c) + if l.year in Keys(c) then [] else [l.year]
    ensures l.year in Keys(Appended(c, l))
    ensures l.month in Keys(Value(Appended(c, l), l.year))
    ensures l.day in Keys(Value(Value(Appended(c, l), l.year), l.month))
  {
    var months := Get(c, l.year).GetOr([]);
    var days := Get(months, l.month).GetOr([]);
    var timings := Get(days, l.day).GetOr([]);
    var months' := Put(months, l.month, Put(days, l.day, timings + [l.timing]));
    KeysPut(c, l.year, months');
    GetPut(c, l.year, months', l.year);
    KeysPut(months, l.month, Put(days, l.day, timings + [l.timing]));
    GetPut(months, l.month, Put(days, l.day, timings + [l.timing]), l.month);
    KeysPut(days, l.day, timings + [l.timing]);
  }

  /** `f"{yr}{mo}{day}Z{timing}.mp3"`. */
  function FileName(l: Location): string {
    l.year + l.month + l.day + "Z" + l.timing + ".mp3"
  }

  /** `get_last_file`: the greatest year, month and day key, then the last
      timing of that day's list; `None` where the Python code raises
      IndexError on an empty level. */
  function LastEntry(c: Catalog): Option<Location> {
    if c == [] then None
    else
      var year := MaxStr(Keys(c));
      var months := Value(c, year);
      if months == [] then None
      else
        var month := MaxStr(Keys(months));
        var days := Value(months, month);
        if days == [] then None
        else
          var day := MaxStr(Keys(days));
          var timings := Value(days, day);
          if timings == [] then None
          else Some(Location(year, month, day, timings[|timings| - 1]))
  }

  /** What `get_last_file` returns. */
  lemma LastEntryIsLatest(c: Catalog)
    ensures LastEntry(c).Some? ==>
      var l := LastEntry(c).value;
      var months := Value(c, l.year);
      var days := Value(months, l.month);
      var timings := Value(days, l.day);
      && (forall y :: y in Keys(c) ==> !StrLt(l.year, y))
      && (forall m :: m in Keys(months) ==> !StrLt(l.month, m))
      && (forall d :: d in Keys(days) ==> !StrLt(l.day, d))
      && timings != [] && l.timing == timings[|timings| - 1]
      && timings == Timings(c, l.year, l.month, l.day)
    ensures LastEntry(c).None? <==>
      || c == []
      || Value(c, MaxStr(Keys(c))) == []
      || Value(Value(c, MaxStr(Keys(c))), MaxStr(Keys(Value(c, MaxStr(Keys(c)))))) == []
      || Timings(c, MaxStr(Keys(c)), MaxStr(Keys(Value(c, MaxStr(Keys(c))))),
                 MaxStr(Keys(Value(Value(c, MaxStr(Keys(c))), MaxStr(Keys(Value(c, MaxStr(Keys(c))))))))) == []
  {
  }

  /** The greatest of a key list that ends in `k` and whose other keys are all
      at most `k` is `k`. */
  lemma MaxStrOfGreatest(keys: seq<string>, k: string)
    requires k in keys
    requires forall k' :: k' in keys ==> !StrLt(k, k')
    ensures |keys| > 0 && MaxStr(keys) == k
  {
    var m := MaxStr(keys);
    StrLtTotal(m, k);
  }

  /** Putting a key that is at least every key present makes it the greatest key. */
  lemma PutGreatestKey<V>(d: Dict<V>, k: string, v: V)
    requires forall k' :: k' in Keys(d) ==> !StrLt(k, k')
    ensures Put(d, k, v) != [] && MaxStr(Keys(Put(d, k, v))) == k && Value(Put(d, k, v), k) == v
  {
    var d' := Put(d, k, v);
    KeysPut(d, k, v);
    GetPut(d, k, v, k);
    StrLtIrreflexive(k);
    assert k in Keys(d');
    assert forall k' :: k' in Keys(d') ==> k' in Keys(d) || k' == k;
    MaxStrOfGreatest(Keys(d'), k);
  }

  /** Appending an entry whose year, month and day keys are the greatest at
      their levels makes it the entry `get_last_file` returns, whatever the
      order of the timings already listed for that day. */
  lemma AppendThenLast(c: Catalog, l: Location)
    requires forall y :: y in Keys(c) ==> !StrLt(l.year, y)
    requires l.year in Keys(c) ==> forall m :: m in Keys(Value(c, l.year)) ==> !StrLt(l.month, m)
    requires l.year in Keys(c) && l.month in Keys(Value(c, l.year)) ==>
               forall d :: d in Keys(Value(Value(c, l.year), l.month)) ==> !StrLt(l.day, d)
    ensures LastEntry(Appended(c, l)) == Some(l)
  {
    var months := Get(c, l.year).GetOr([]);
    var days := Get(months, l.month).GetOr([]);
    var timings := Get(days, l.day).GetOr([]);
    var days' := Put(days, l.day, timings + [l.timing]);
    var months' := Put(months, l.month, days');
    var c' := Put(c, l.year, months');
    assert c' == Appended(c, l);
    assert forall m :: m in Keys(months) ==> !StrLt(l.month, m) by {
      if l.year in Keys(c) { assert months == Value(c, l.year); } else { assert months == []; }
    }
    assert forall d :: d in Keys(days) ==> !StrLt(l.day, d) by {
      if l.year in Keys(c) && l.month in Keys(Value(c, l.year)) {
        assert days == Value(Value(c, l.year), l.month);
      } else {
        assert days == [];
      }
    }
    PutGreatestKey(c, l.year, months');
    PutGreatestKey(months, l.month, days');
    PutGreatestKey(days, l.day, timings + [l.timing]);
    LastEntryAlongPath(Appended(c, l), l, months', days', timings + [l.timing]);
  }

  /** `get_last_file` follows the path of greatest keys it is given. */
  lemma LastEntryAlongPath(c: Catalog, l: Location, months: Months, days: Days, timings: seq<string>)
    requires c != [] && MaxStr(Keys(c)) == l.year && Value(c, l.year) == months
    requires months != [] && MaxStr(Keys(months)) == l.month && Value(months, l.month) == days
    requires days != [] && MaxStr(Keys(days)) == l.day && Value(days, l.day) == timings
    requires timings != [] && timings[|timings| - 1] == l.timing
    ensures LastEntry(c) == Some(l)
  {
  }

  /** The caller's stand-in for `random.choice` at each of the four levels. */
  datatype Picks = Picks(year: nat, month: nat, day: nat, timing: nat)

  /** `random.choice(xs)` driven by index `i`, taken modulo `|xs|`: every
      element of a non-empty list is reachable, and an empty list fails as
      IndexError does. */
  function Choice<T>(xs: seq<T>, i: nat): (r: Option<T>)
    ensures r.Some? <==> xs != []
    ensures r.Some? ==> r.value in xs
    ensures i < |xs| ==> r == Some(xs[i])
    decreases i
  {
    if xs == [] then None
    else if i < |xs| then Some(xs[i])
    else Choice(xs, i - |xs|)
  }

  /** The index is in effect taken modulo the list's length. */
  lemma {:induction false} ChoiceIsModulo<T>(xs: seq<T>, i: nat)
    requires xs != []
    ensures Choice(xs, i) == Some(xs[i % |xs|])
    decreases i
  {
    if i >= |xs| {
      ChoiceIsModulo(xs, i - |xs|);
      ModShift(i - |xs|, |xs|);
    }
  }

  lemma ModShift(j: nat, n: nat)
    requires n > 0
    ensures (j + n) % n == j % n
  {
    MulDiff(j / n + 1, 1, n);
    ModUnique(j + n, n, j / n + 1, j % n);
  }

  /** Euclidean division has one quotient and remainder. */
  lemma ModUnique(x: int, n: int, q: int, r: int)
    requires n > 0 && 0 <= r < n && x == q * n + r
    ensures x % n == r
  {
    var q' := x / n;
    MulDiff(q, q', n);
    MulDiff(q', q, n);
    if q > q' {
      MulAtLeast(q - q', n);
    } else if q < q' {
      MulAtLeast(q' - q, n);
    }
  }

  lemma MulAtLeast(k: int, n: int)
    requires k >= 1 && n > 0
    ensures k * n >= n
  {
  }

  lemma MulDiff(a: int, b: int, n: int)
    ensures a * n - b * n == (a - b) * n
  {
  }

  /** `get_random_file`: one independent pick per level. */
  function RandomEntry(c: Catalog, p: Picks): Option<Location> {
    match Choice(Keys(c), p.year)
    case None => None
    case Some(year) =>
      var months := Value(c, year);
      match Choice(Keys(months), p.month)
      case None => None
      case Some(month) =>
        var days := Value(months, month);
        match Choice(Keys(days), p.day)
        case None => None
        case Some(day) =>
          match Choice(Value(days, day), p.timing)
          case None => None
          case Some(timing) => Some(Location(year, month, day, timing))
  }

  /** The name `get_last_file` returns. */
  function LastFile(c: Catalog): Option<string> {
    match LastEntry(c)
    case None => None
    case Some(l) => Some(FileName(l))
  }

  /** The name `get_random_file` returns. */
  function RandomFile(c: Catalog, p: Picks): Option<string> {
    match RandomEntry(c, p)
    case None => None
    case Some(l) => Some(FileName(l))
  }

  /** `get_random_file` only returns catalogued recordings. */
  lemma RandomEntryIsCatalogued(c: Catalog, p: Picks)
    ensures RandomEntry(c, p).Some? ==> Catalogued(c, RandomEntry(c, p).value)
  {
  }

  /** The index of the first occurrence of `x`. */
  function IndexOf<T(==)>(xs: seq<T>, x: T): (i: nat)
    requires x in xs
    ensures i < |xs| && xs[i] == x
  {
    if xs[0] == x then 0 else 1 + IndexOf(xs[1..], x)
  }

  /** Every catalogued recording is one `get_random_file` can return. */
  lemma EveryCataloguedEntryIsReachable(c: Catalog, l: Location)
    requires Catalogued(c, l)
    ensures RandomEntry(c, PicksFor(c, l)) == Some(l)
  {
    var months := Value(c, l.year);
    var days := Value(months, l.month);
    var timings := Value(days, l.day);
    var p := PicksFor(c, l);
    CataloguedLevelsExist(c, l);
    RandomEntryAlongPath(c, p, l);
  }

  /** `get_random_file` returns the location its four choices spell out. */
  lemma RandomEntryAlongPath(c: Catalog, p: Picks, l: Location)
    requires Choice(Keys(c), p.year) == Some(l.year)
    requires Choice(Keys(Value(c, l.year)), p.month) == Some(l.month)
    requires Choice(Keys(Value(Value(c, l.year), l.month)), p.day) == Some(l.day)
    requires Choice(Value(Value(Value(c, l.year), l.month), l.day), p.timing) == Some(l.timing)
    ensures RandomEntry(c, p) == Some(l)
  {
  }

  /** A catalogued recording's year, month and day keys are all present. */
  lemma CataloguedLevelsExist(c: Catalog, l: Location)
    requires Catalogued(c, l)
    ensures l.year in Keys(c)
    ensures l.month in Keys(Value(c, l.year))
    ensures l.day in Keys(Value(Value(c, l.year), l.month))
    ensures Value(Value(Value(c, l.year), l.month), l.day) == Timings(c, l.year, l.month, l.day)
  {
  }

  /** The picks that lead `RandomEntry` to a catalogued `l`. */
  function PicksFor(c: Catalog, l: Location): Picks
    requires Catalogued(c, l)
  {
    CataloguedLevelsExist(c, l);
    var months := Value(c, l.year);
    var days := Value(months, l.month);
    Picks(IndexOf(Keys(c), l.year), IndexOf(Keys(months), l.month),
          IndexOf(Keys(days), l.day), IndexOf(Value(days, l.day), l.timing))
  }

  /** The text `$` is matched against: a single trailing newline is skipped. */
  function RegexSubject(s: string): (r: string)
    ensures r == s || s == r + "\n"
  {
    if |s| > 0 && s[|s| - 1] == '\n' then s[..|s| - 1] else s
  }

  /** `\b` between positions `p - 1` and `p` of `s`. */
  predicate AtWordBoundary(s: string, p: nat)
    requires p <= |s|
  {
    (p > 0 && IsWordChar(s[p - 1])) != (p < |s| && IsWordChar(s[p]))
  }

  /** The groups of a 17-character `(....)(..)(..)Z(....).mp3` tail. */
  function BroadcastTail(t: string): (r: Option<Location>)
    requires |t| == 17
    ensures r.Some? <==> t[8] == 'Z' && t[14..] == "mp3"
    ensures r.Some? ==> t == r.value.year + r.value.month + r.value.day + "Z" + r.value.timing + [t[13]] + "mp3"
  {
    if t[8] == 'Z' && t[14..] == "mp3"
    then Some(Location(t[..4], t[4..6], t[6..8], t[9..13]))
    else None
  }

  /** `re.match(r'.*\b(....)(..)(..)Z(....).mp3$', file)`: `.` matches any
      character but a newline, so the whole subject must be newline-free. */
  function MatchRecordingName(file: string): (r: Option<Location>)
    ensures r.Some? ==> |r.value.year| == 4 && |r.value.month| == 2 && |r.value.day| == 2 && |r.value.timing| == 4
    ensures r.Some? ==>
              var s := RegexSubject(file);
              && '\n' !in s && |s| >= 17 && AtWordBoundary(s, |s| - 17)
              && s[|s| - 17..] == r.value.year + r.value.month + r.value.day + "Z" + r.value.timing + [s[|s| - 4]] + "mp3"
  {
    var s := RegexSubject(file);
    if '\n' in s || |s| < 17 || !AtWordBoundary(s, |s| - 17) then None
    else BroadcastTail(s[|s| - 17..])
  }

  /** `re.match(".*archive/(....)(..)(..)Z(....).mp3$", key)`. */
  function MatchArchiveKey(key: string): (r: Option<Location>)
    ensures r.Some? ==> |r.value.year| == 4 && |r.value.month| == 2 && |r.value.day| == 2 && |r.value.timing| == 4
    ensures r.Some? ==>
              var s := RegexSubject(key);
              && '\n' !in s && |s| >= 25 && s[|s| - 25..|s| - 17] == "archive/"
              && s[|s| - 17..] == r.value.year + r.value.month + r.value.day + "Z" + r.value.timing + [s[|s| - 4]] + "mp3"
  {
    var s := RegexSubject(key);
    if '\n' in s || |s| < 25 || s[|s| - 25..|s| - 17] != "archive/" then None
    else BroadcastTail(s[|s| - 17..])
  }

  /** A location whose groups have the widths the file-name pattern expects. */
  predicate WellFormed(l: Location) {
    |l.year| == 4 && |l.month| == 2 && |l.day| == 2 && |l.timing| == 4 &&
    '\n' !in l.year && '\n' !in l.month && '\n' !in l.day && '\n' !in l.timing
  }

  /** The name `get_last_file` renders parses back to the same groups under
      the catalog's file-name pattern, for a year that starts with a word character. */
  lemma RecordingNameRoundTrip(l: Location)
    requires WellFormed(l) && IsWordChar(l.year[0])
    ensures MatchRecordingName(FileName(l)) == Some(l)
  {
    var s := FileName(l);
    assert |s| == 17;
    assert s[|s| - 17..] == s;
    assert s[16] == '3';
    assert RegexSubject(s) == s;
    assert '\n' !in s;
    assert s[0] == l.year[0];
    assert AtWordBoundary(s, 0);
    assert s[..4] == l.year && s[4..6] == l.month && s[6..8] == l.day && s[8] == 'Z';
    assert s[9..13] == l.timing && s[14..] == "mp3";
  }

  /** Under the archive-listing pattern, the key `archive/` plus a rendered
      name parses back to the same groups. */
  lemma ArchiveKeyRoundTrip(l: Location)
    requires WellFormed(l)
    ensures MatchArchiveKey("archive/" + FileName(l)) == Some(l)
  {
    var s := "archive/" + FileName(l);
    assert |s| == 25;
    assert s[|s| - 17..] == FileName(l);
    assert s[..8] == "archive/";
    assert s[24] == '3';
    assert RegexSubject(s) == s;
    assert '\n' !in s;
    var t := FileName(l);
    assert t[..4] == l.year && t[4..6] == l.month && t[6..8] == l.day && t[8] == 'Z';
    assert t[9..13] == l.timing && t[14..] == "mp3";
  }

  /** The catalog's own object does not match the archive-listing pattern. */
  lemma CatalogObjectDoesNotMatch()
    ensures MatchArchiveKey("archive/catalog.json") == None
  {
  }
}
