/**
 * The few Python `str` operations the scripts rely on, with Python's own
 * semantics: clamped slicing, `strip`, `split()`, `replace`, `in`,
 * `endswith`, `",".join`, `os.path.basename`, and code-point ordering.
 */
module PyStr {

  /** The characters `str.isspace()` accepts, which `str.strip()` and
      `str.split()` remove: the ASCII tab, line feed, vertical tab, form feed,
      carriage return, the separators U+001C to U+001F and the space, then
      U+0085, the no-break space and the Unicode space separators. */
  predicate IsSpace(c: char) {
    ('\t' <= c <= '\r') || ('\U{1C}' <= c <= ' ')
    || c == '\U{85}' || c == '\U{A0}' || c == '\U{1680}'
    || ('\U{2000}' <= c <= '\U{200A}') || c == '\U{2028}' || c == '\U{2029}'
    || c == '\U{202F}' || c == '\U{205F}' || c == '\U{3000}'
  }

  /** The ASCII characters of the regular-expression class `\w`. */
  predicate IsWordChar(c: char) {
    ('a' <= c <= 'z') || ('A' <= c <= 'Z') || ('0' <= c <= '9') || c == '_'
  }

  function TrimLeft(s: string): string {
    if |s| > 0 && IsSpace(s[0]) then TrimLeft(s[1..]) else s
  }

  function TrimRight(s: string): string {
    if |s| > 0 && IsSpace(s[|s| - 1]) then TrimRight(s[..|s| - 1]) else s
  }

  /** `s.strip()`: leading and trailing whitespace removed. */
  function Strip(s: string): string {
    TrimRight(TrimLeft(s))
  }

  lemma {:induction false} TrimLeftIsSuffix(s: string)
    ensures var r := TrimLeft(s);
            |r| <= |s| && r == s[|s| - |r|..] && (r == [] || !IsSpace(r[0]))
            && forall i :: 0 <= i < |s| - |r| ==> IsSpace(s[i])
    decreases |s|
  {
    if |s| > 0 && IsSpace(s[0]) {
      TrimLeftIsSuffix(s[1..]);
    }
  }

  lemma {:induction false} TrimRightIsPrefix(s: string)
    ensures var r := TrimRight(s);
            |r| <= |s| && r == s[..|r|] && (r == [] || !IsSpace(r[|r| - 1]))
            && forall i :: |r| <= i < |s| ==> IsSpace(s[i])
    decreases |s|
  {
    if |s| > 0 && IsSpace(s[|s| - 1]) {
      TrimRightIsPrefix(s[..|s| - 1]);
    }
  }

  /** `strip()` removes exactly the whitespace at either end: what is left is
      a slice of the input that neither starts nor ends with whitespace, and
      everything cut off around it is whitespace. */
  lemma StripIsTrimmedSlice(s: string) returns (a: nat)
    ensures var r := Strip(s);
            && a + |r| <= |s| && r == s[a..a + |r|]
            && (forall i :: 0 <= i < a ==> IsSpace(s[i]))
            && (forall i :: a + |r| <= i < |s| ==> IsSpace(s[i]))
    ensures Strip(s) == [] || (!IsSpace(Strip(s)[0]) && !IsSpace(Strip(s)[|Strip(s)| - 1]))
  {
    var l := TrimLeft(s);
    TrimLeftIsSuffix(s);
    TrimRightIsPrefix(l);
    var r := Strip(s);
    a := |s| - |l|;
    assert r == l[..|r|] && l == s[a..];
    assert r == s[a..a + |r|];
    assert forall i :: 0 <= i < a ==> IsSpace(s[i]);
    assert forall i :: a + |r| <= i < |s| ==> IsSpace(s[i]) by {
      forall i | a + |r| <= i < |s| ensures IsSpace(s[i]) {
        assert s[i] == l[i - a];
      }
    }
    if r != [] {
      assert r[0] == l[0];
    }
  }

  /** `strip()` also removes the file separator U+001C and the no-break
      space U+00A0, which Python counts as whitespace. */
  lemma StripRemovesNonAsciiSpace()
    ensures Strip("\U{A0}ab\U{1C}") == "ab"
  {
    var s := "\U{A0}ab\U{1C}";
    assert TrimLeft(s) == TrimLeft(s[1..]) == "ab\U{1C}";
    var l := "ab\U{1C}";
    assert TrimRight(l) == TrimRight(l[..2]) == "ab";
  }

  /** Length of the leading run of non-whitespace characters. */
  function TokenLen(s: string): (n: nat)
    ensures n <= |s|
    ensures |s| > 0 && !IsSpace(s[0]) ==> n > 0
  {
    if |s| == 0 || IsSpace(s[0]) then 0 else 1 + TokenLen(s[1..])
  }

  /** `s.split()` with no separator: the maximal runs of non-whitespace characters. */
  function Split(s: string): (r: seq<string>)
    ensures forall i :: 0 <= i < |r| ==> r[i] != []
    decreases |s|
  {
    if |s| == 0 then []
    else if IsSpace(s[0]) then Split(s[1..])
    else
      var n := TokenLen(s);
      [s[..n]] + Split(s[n..])
  }

  /** A word: a non-empty run of non-whitespace characters. */
  predicate IsWord(w: string) {
    w != [] && forall i :: 0 <= i < |w| ==> !IsSpace(w[i])
  }

  lemma {:induction false} TokenLenOfWord(w: string, rest: string)
    requires forall i :: 0 <= i < |w| ==> !IsSpace(w[i])
    requires rest == [] || IsSpace(rest[0])
    ensures TokenLen(w + rest) == |w|
    decreases |w|
  {
    if w != [] {
      assert (w + rest)[1..] == w[1..] + rest;
      TokenLenOfWord(w[1..], rest);
    } else {
      assert w + rest == rest;
    }
  }

  /** Two words joined by a space split back into the two words, and
      stripping leaves them untouched. */
  lemma SplitTwoWords(a: string, b: string)
    requires IsWord(a) && IsWord(b)
    ensures Strip(a + " " + b) == a + " " + b
    ensures Split(a + " " + b) == [a, b]
  {
    var s := a + " " + b;
    assert s[0] == a[0] && s[|s| - 1] == b[|b| - 1];
    assert TrimLeft(s) == s;
    assert TrimRight(s) == s;
    TokenLenOfWord(a, " " + b);
    assert s == a + (" " + b);
    assert s[..|a|] == a && s[|a|..] == " " + b;
    assert (" " + b)[1..] == b;
    TokenLenOfWord(b, []);
    assert b + [] == b;
    assert b[|b|..] == [] && b[..|b|] == b;
    assert Split(b) == [b] + Split([]);
    assert Split(" " + b) == Split(b);
    assert Split(s) == [a] + Split(" " + b);
  }

  /** Normalises a Python slice bound `i` for a string of length `n`. */
  function PyBound(n: nat, i: int): (b: nat)
    ensures b <= n
  {
    if i < 0 then (if n + i < 0 then 0 else n + i)
    else if i > n then n
    else i
  }

  /** `s[i:j]`, where negative bounds count from the end and bounds are clamped. */
  function PySlice(s: string, i: int, j: int): (r: string)
    ensures |r| <= |s|
  {
    var a, b := PyBound(|s|, i), PyBound(|s|, j);
    if a <= b then s[a..b] else []
  }

  /** `p in s` for strings: `p` occurs contiguously in `s`. */
  predicate Contains(s: string, p: string)
    decreases |s|
  {
    |p| <= |s| && (s[..|p|] == p || Contains(s[1..], p))
  }

  /** A pattern whose first character does not occur in `s` is not in `s`. */
  lemma {:induction false} FirstCharAbsent(s: string, p: string)
    requires p != [] && p[0] !in s
    ensures !Contains(s, p)
    decreases |s|
  {
    if |p| <= |s| {
      assert s[..|p|][0] == s[0];
      FirstCharAbsent(s[1..], p);
    }
  }

  predicate StartsWith(s: string, p: string) {
    |p| <= |s| && s[..|p|] == p
  }

  predicate EndsWith(s: string, p: string) {
    |p| <= |s| && s[|s| - |p|..] == p
  }

  /** `s.replace(pat, rep)`: every non-overlapping occurrence, scanning left to right. */
  function ReplaceAll(s: string, pat: string, rep: string): (r: string)
    requires pat != []
    ensures !Contains(s, pat) ==> r == s
    decreases |s|
  {
    if |s| < |pat| then s
    else if s[..|pat|] == pat then rep + ReplaceAll(s[|pat|..], pat, rep)
    else [s[0]] + ReplaceAll(s[1..], pat, rep)
  }

  /** `sep.join(parts)`. */
  function Join(parts: seq<string>, sep: string): (r: string)
  {
    if |parts| == 0 then ""
    else if |parts| == 1 then parts[0]
    else parts[0] + sep + Join(parts[1..], sep)
  }

  /** `s.split(c)` for a one-character separator: the pieces between
      separators, empty ones included. */
  function SplitOn(s: string, c: char): (r: seq<string>)
    ensures |r| >= 1
    decreases |s|
  {
    if s == [] then [""]
    else
      var rest := SplitOn(s[1..], c);
      if s[0] == c then [""] + rest else [[s[0]] + rest[0]] + rest[1..]
  }

  lemma {:induction false} SplitOnPrefix(p: string, t: string, c: char)
    requires c !in p
    ensures SplitOn(p + t, c) == [p + SplitOn(t, c)[0]] + SplitOn(t, c)[1..]
    decreases |p|
  {
    if p == [] {
      var r := SplitOn(t, c);
      assert p + t == t && p + r[0] == r[0];
      assert r == [r[0]] + r[1..];
    } else {
      assert (p + t)[1..] == p[1..] + t;
      SplitOnPrefix(p[1..], t, c);
      assert [p[0]] + (p[1..] + SplitOn(t, c)[0]) == p + SplitOn(t, c)[0];
    }
  }

  /** Splitting a join on its separator gives the parts back, provided no
      part contains the separator. */
  lemma {:induction false} SplitJoin(parts: seq<string>, c: char)
    requires parts != []
    requires forall i :: 0 <= i < |parts| ==> c !in parts[i]
    ensures SplitOn(Join(parts, [c]), c) == parts
    decreases |parts|
  {
    if |parts| == 1 {
      SplitOnPrefix(parts[0], "", c);
      assert parts[0] + "" == parts[0];
      assert parts == [parts[0]];
    } else {
      var tail := Join(parts[1..], [c]);
      SplitJoin(parts[1..], c);
      assert Join(parts, [c]) == parts[0] + ([c] + tail);
      SplitOnPrefix(parts[0], [c] + tail, c);
      assert ([c] + tail)[1..] == tail;
      var r := SplitOn([c] + tail, c);
      assert r == [""] + SplitOn(tail, c);
      assert parts[0] + r[0] == parts[0];
      assert parts == [parts[0]] + parts[1..];
    }
  }

  /** `os.path.basename(path)`: everything after the last '/'. */
  function Basename(path: string): (r: string)
    ensures '/' !in r
    ensures |r| <= |path| && r == path[|path| - |r|..]
    ensures |r| < |path| ==> path[|path| - |r| - 1] == '/'
  {
    if |path| == 0 || path[|path| - 1] == '/' then ""
    else Basename(path[..|path| - 1]) + [path[|path| - 1]]
  }

  /** Python's `a < b` on strings: lexicographic by code point. */
  predicate StrLt(a: string, b: string)
    decreases |a|
  {
    if |a| == 0 then |b| > 0
    else if |b| == 0 then false
    else if a[0] == b[0] then StrLt(a[1..], b[1..])
    else a[0] < b[0]
  }

  lemma {:induction false} StrLtIrreflexive(a: string)
    ensures !StrLt(a, a)
    decreases |a|
  {
    if |a| > 0 { StrLtIrreflexive(a[1..]); }
  }

  lemma {:induction false} StrLtTotal(a: string, b: string)
    ensures a == b || StrLt(a, b) || StrLt(b, a)
    decreases |a|
  {
    if |a| > 0 && |b| > 0 && a[0] == b[0] {
      StrLtTotal(a[1..], b[1..]);
      if a[1..] == b[1..] {
        assert a == [a[0]] + a[1..] && b == [b[0]] + b[1..];
      }
    }
  }

  lemma {:induction false} StrLtTransitive(a: string, b: string, c: string)
    requires StrLt(a, b) && StrLt(b, c)
    ensures StrLt(a, c)
    decreases |a|
  {
    if |a| > 0 && |b| > 0 && |c| > 0 && a[0] == b[0] && b[0] == c[0] {
      StrLtTransitive(a[1..], b[1..], c[1..]);
    }
  }

  lemma StrLtAsymmetric(a: string, b: string)
    requires StrLt(a, b)
    ensures !StrLt(b, a)
  {
    if StrLt(b, a) {
      StrLtTransitive(a, b, a);
      StrLtIrreflexive(a);
    }
  }

  /** `sorted(keys)[-1]`: the greatest key under Python's string order. */
  function MaxStr(keys: seq<string>): (r: string)
    requires |keys| > 0
    ensures r in keys
    ensures forall k :: k in keys ==> !StrLt(r, k)
  {
    if |keys| == 1 then
      StrLtIrreflexive(keys[0]);
      keys[0]
    else
      var m := MaxStr(keys[1..]);
      if StrLt(keys[0], m) then
        StrLtAsymmetric(keys[0], m);
        m
      else
        assert forall k :: k in keys[1..] ==> !StrLt(keys[0], k) by {
          forall k | k in keys[1..] ensures !StrLt(keys[0], k) {
            if StrLt(keys[0], k) {
              StrLtTotal(m, k);
              if StrLt(k, m) { StrLtTransitive(keys[0], k, m); }
            }
          }
        }
        StrLtIrreflexive(keys[0]);
        keys[0]
  }
}
