/**
 * Deleting recordings (tools/delete-files.py): for each name read from
 * standard input, the recording under `archive/` is deleted and then the
 * key the script takes for its cue file.
 */
module DeleteFiles {
  import opened PyStr
  import opened ObjectKeys
  import opened Bucket

  /** `[line.strip() for line in sys.stdin if line]`: the test is on the
      unstripped line, so a blank line still yields a name, "". Lines read
      from standard input are never empty, so every line gives a name. */
  function Names(lines: seq<string>): (names: seq<string>)
    ensures |names| <= |lines|
    ensures (forall i :: 0 <= i < |lines| ==> lines[i] != "") ==>
              |names| == |lines| && forall i :: 0 <= i < |lines| ==> names[i] == Strip(lines[i])
    decreases |lines|
  {
    if lines == [] then []
    else
      var rest := Names(lines[1..]);
      assert (forall i :: 0 <= i < |lines| ==> lines[i] != "") ==>
               forall i :: 0 <= i < |lines| - 1 ==> lines[1..][i] != "";
      (if lines[0] != "" then [Strip(lines[0])] else []) + rest
  }

  /** `f"cues/{mp3_filename.replace('.mp3', '.json')}"`, as written. */
  function CueKeyAsWritten(name: string): string {
    "cues/" + ReplaceAll(name, ".mp3", ".json")
  }

  /** The key the transcriber stores a recording's cue file under:
      `cues/{name}.json`, which the other tools turn back into the name. */
  function CueFileKey(name: string): (key: string)
    ensures StartsWith(key, "cues/") && EndsWith(key, ".json")
    ensures ReportedName(key) == name
  {
    ReportedNameOfCueKey(name);
    var key := CueKey(name);
    assert key[..5] == "cues/" && key[|key| - 5..] == ".json";
    key
  }

  /** The two deletions for one name: the recording first, then the cue key. */
  function NameDeletions(name: string): seq<Request> {
    [Request.Delete(ArchiveKey(name)), Request.Delete(CueKeyAsWritten(name))]
  }

  /** All deletions, name by name in input order. */
  function Deletions(names: seq<string>): seq<Request>
    decreases |names|
  {
    if names == [] then [] else Deletions(names[..|names| - 1]) + NameDeletions(names[|names| - 1])
  }

  /** The keys the deletions target. */
  function DeletedKeys(names: seq<string>): set<string>
    decreases |names|
  {
    if names == [] then {}
    else DeletedKeys(names[..|names| - 1]) + {ArchiveKey(names[|names| - 1]), CueKeyAsWritten(names[|names| - 1])}
  }

  /** `delete_files`: two deletions per name, in input order. */
  method DeleteAll(store: Store, names: seq<string>)
    modifies store
    ensures store.log == old(store.log) + Deletions(names)
    ensures store.objects == old(store.objects) - DeletedKeys(names)
  {
    for i := 0 to |names|
      invariant store.log == old(store.log) + Deletions(names[..i])
      invariant store.objects == old(store.objects) - DeletedKeys(names[..i])
    {
      assert names[..i + 1][..i] == names[..i];
      var name := names[i];
      store.Delete(ArchiveKey(name));
      store.Delete(CueKeyAsWritten(name));
    }
    assert names[..|names|] == names;
  }

  /** The script: the names read from standard input, then `delete_files`. */
  method DeleteFromInput(store: Store, lines: seq<string>)
    modifies store
    ensures store.log == old(store.log) + Deletions(Names(lines))
    ensures store.objects == old(store.objects) - DeletedKeys(Names(lines))
  {
    DeleteAll(store, Names(lines));
  }

  /** Name `i`'s two deletions are requests `2i` and `2i + 1`: each
      recording goes before its cue key, and names keep their input order. */
  lemma {:induction false} DeletionOrder(names: seq<string>, i: nat)
    requires i < |names|
    ensures |Deletions(names)| == 2 * |names|
    ensures Deletions(names)[2 * i] == Request.Delete(ArchiveKey(names[i]))
    ensures Deletions(names)[2 * i + 1] == Request.Delete(CueKeyAsWritten(names[i]))
    decreases |names|
  {
    var init := names[..|names| - 1];
    DeletionsLength(init);
    if i < |init| {
      DeletionOrder(init, i);
      assert init[i] == names[i];
    }
  }

  lemma {:induction false} DeletionsLength(names: seq<string>)
    ensures |Deletions(names)| == 2 * |names|
    decreases |names|
  {
    if names != [] {
      DeletionsLength(names[..|names| - 1]);
    }
  }

  /** A line of nothing but whitespace becomes the empty name, whose
      deletions target the bare prefixes `archive/` and `cues/`. */
  lemma BlankLineTargetsPrefixes(line: string)
    requires line != [] && forall i :: 0 <= i < |line| ==> IsSpace(line[i])
    ensures Names([line]) == [""]
    ensures Deletions(Names([line])) == [Request.Delete("archive/"), Request.Delete("cues/")]
  {
    TrimLeftIsSuffix(line);
    assert Strip(line) == "";
    assert ReplaceAll("", ".mp3", ".json") == "";
    assert [""][..0] == [];
    assert ArchiveKey("") == "archive/" + "" == "archive/";
    assert CueKeyAsWritten("") == "cues/" + "" == "cues/";
    assert Deletions([""]) == Deletions([]) + NameDeletions("");
  }

  /** A name with no '.' but the one of its `.mp3` extension has that
      extension replaced by `.json`. */
  lemma {:induction false} ReplaceExtension(base: string)
    requires '.' !in base
    ensures ReplaceAll(base + ".mp3", ".mp3", ".json") == base + ".json"
    decreases |base|
  {
    var s := base + ".mp3";
    if base == [] {
      assert s == ".mp3" && s[4..] == [];
    } else {
      assert s[..4] != ".mp3" by { assert s[0] == base[0] != '.'; }
      assert s[1..] == base[1..] + ".mp3";
      ReplaceExtension(base[1..]);
      assert [base[0]] + (base[1..] + ".json") == base + ".json";
    }
  }

  /** The script deletes `cues/{base}.json`, but the cue file of
      `{base}.mp3` is `cues/{base}.mp3.json`: the cue file is left behind. */
  lemma AsWrittenMissesCueFile(base: string)
    requires '.' !in base
    ensures CueKeyAsWritten(base + ".mp3") == "cues/" + base + ".json"
    ensures CueKeyAsWritten(base + ".mp3") != CueFileKey(base + ".mp3")
  {
    ReplaceExtension(base);
    var a := "cues/" + base + ".json";
    var b := CueKey(base + ".mp3");
    assert |a| != |b|;
  }
}
