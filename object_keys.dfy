/**
 * The bucket's object keys for one recording named `name` (such as
 * `20240101Z0048.mp3`): the recording under `archive/`, its cue file under
 * `cues/` (the recording's name plus `.json`, as the transcriber uploads
 * it), and the `broken/` keys the maintenance tools move them to.
 */
module ObjectKeys {
  import opened Wrappers
  import opened PyStr
  import opened Boundaries

  /** The two fields of a cue file that the maintenance tools read: its
      `cues` map and its `length`, each `None` when the field is absent. */
  datatype CueFile = CueFile(cues: Option<CueMap>, length: Option<real>)

  /** One object of a bucket listing under `cues/`: its key, its
      last-modified time (seconds since the epoch) and its parsed content. */
  datatype Listed = Listed(key: string, lastModified: int, content: CueFile)

  /** `f"archive/{name}"`. */
  function ArchiveKey(name: string): string {
    "archive/" + name
  }

  /** `f"cues/{name}.json"`. */
  function CueKey(name: string): string {
    "cues/" + name + ".json"
  }

  /** `f"broken/{name}"`. */
  function BrokenKey(name: string): string {
    "broken/" + name
  }

  /** `f"broken/{name[:-4]}.json"`. */
  function BrokenCueKey(name: string): string {
    "broken/" + PySlice(name, 0, -4) + ".json"
  }

  /** `key[:-5]` then `[len("cues/"):]`: the name a cue file is reported under. */
  function ReportedName(key: string): string {
    var s := PySlice(key, 0, -5);
    PySlice(s, 5, |s|)
  }

  /** A cue file is reported under the name of its recording. */
  lemma ReportedNameOfCueKey(name: string)
    ensures ReportedName(CueKey(name)) == name
  {
    var key := CueKey(name);
    assert PySlice(key, 0, -5) == key[..|key| - 5];
    assert key[..|key| - 5] == "cues/" + name;
    var s := "cues/" + name;
    assert PySlice(s, 5, |s|) == s[5..];
    assert s[5..] == name;
  }

  /** The broken cue key replaces the recording's four-character extension. */
  lemma BrokenCueKeyDropsExtension(base: string)
    ensures BrokenCueKey(base + ".mp3") == "broken/" + base + ".json"
  {
    var name := base + ".mp3";
    assert PySlice(name, 0, -4) == name[..|name| - 4];
    assert name[..|name| - 4] == base;
  }

  /** Different recordings have different keys under every prefix. */
  lemma KeysAreDistinct(a: string, b: string)
    requires a != b
    ensures ArchiveKey(a) != ArchiveKey(b) && CueKey(a) != CueKey(b) && BrokenKey(a) != BrokenKey(b)
  {
    ReportedNameOfCueKey(a);
    ReportedNameOfCueKey(b);
    assert ArchiveKey(a)[8..] == a && ArchiveKey(b)[8..] == b;
    assert BrokenKey(a)[7..] == a && BrokenKey(b)[7..] == b;
  }
}
