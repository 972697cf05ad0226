/** The Python string operations the build helper relies on (`str.rstrip`,
    `readline`, `str.split`, `str.replace`, `os.path.basename`,
    `os.path.splitext`), over Dafny strings, that is, sequences of Unicode
    code points. `EndsWith` serves the match of `glob` and the contract of
    the conda command. */
module PyStrings {

  // ---------------------------------------------------------------------
  // Whitespace and `str.rstrip()`
  // ---------------------------------------------------------------------

  /** `c.isspace()`: the code points Python counts as whitespace. */
  predicate IsSpace(c: char) {
    var cp := c as int;
    cp == 0x20 || 0x09 <= cp <= 0x0D || 0x1C <= cp <= 0x1F || cp == 0x85 || cp == 0xA0
    || cp == 0x1680 || 0x2000 <= cp <= 0x200A || cp == 0x2028 || cp == 0x2029
    || cp == 0x202F || cp == 0x205F || cp == 0x3000
  }

  predicate AllSpace(s: string) {
    forall i :: 0 <= i < |s| ==> IsSpace(s[i])
  }

  /** `s.rstrip()`: the longest prefix of `s` that does not end in whitespace;
      everything it drops is whitespace. */
  function RStrip(s: string): (r: string)
    ensures |r| <= |s| && r == s[..|r|]
    ensures forall k :: |r| <= k < |s| ==> IsSpace(s[k])
    ensures r == [] || !IsSpace(r[|r| - 1])
    decreases |s|
  {
    if s != [] && IsSpace(s[|s| - 1]) then
      var r := RStrip(s[..|s| - 1]);
      assert s[..|s| - 1][..|r|] == s[..|r|];
      r
    else s
  }

  /** The three properties of RStrip's contract pin its result down. */
  lemma RStripUnique(s: string, r: string)
    requires |r| <= |s| && r == s[..|r|]
    requires forall k :: |r| <= k < |s| ==> IsSpace(s[k])
    requires r == [] || !IsSpace(r[|r| - 1])
    ensures r == RStrip(s)
  {
    var t := RStrip(s);
    assert |t| > 0 ==> s[|t| - 1] == t[|t| - 1];
    assert |r| > 0 ==> s[|r| - 1] == r[|r| - 1];
    assert |r| == |t|;
  }

  /** Whitespace appended to a string does not change what `rstrip` keeps. */
  lemma RStripAppendSpace(s: string, w: string)
    requires AllSpace(w)
    ensures RStrip(s + w) == RStrip(s)
  {
    var r := RStrip(s);
    assert (s + w)[..|r|] == r;
    forall k | |r| <= k < |s + w| ensures IsSpace((s + w)[k]) {
      if k >= |s| {
        assert (s + w)[k] == w[k - |s|];
      } else {
        assert (s + w)[k] == s[k];
      }
    }
    RStripUnique(s + w, r);
  }

  /** Stripping twice strips nothing more. */
  lemma RStripIdempotent(s: string)
    ensures RStrip(RStrip(s)) == RStrip(s)
  {
    var r := RStrip(s);
    assert r[..|r|] == r;
    RStripUnique(r, r);
  }

  // ---------------------------------------------------------------------
  // `f.readline()` in text mode
  // ---------------------------------------------------------------------

  /** Line terminators under Python's universal newlines ("\r\n" starts with '\r'). */
  predicate IsLineEnd(c: char) {
    c == '\n' || c == '\r'
  }

  predicate NoLineEnd(s: string) {
    forall i :: 0 <= i < |s| ==> !IsLineEnd(s[i])
  }

  /** `f.readline()` on a file opened with `open(path, 'r')`: the text up to the
      first line terminator, with that terminator read as one "\n"; the whole
      text when there is no terminator. */
  function ReadLine(s: string): (r: string)
    decreases |s|
  {
    if s == [] then []
    else if IsLineEnd(s[0]) then "\n"
    else [s[0]] + ReadLine(s[1..])
  }

  /** `readline` returns the whole text when it holds no terminator, and
      otherwise the text before the first terminator followed by "\n". */
  lemma {:induction false} ReadLineIsFirstLine(s: string)
    ensures NoLineEnd(s) ==> ReadLine(s) == s
    ensures !NoLineEnd(s) ==>
              0 < |ReadLine(s)| <= |s| && ReadLine(s)[|ReadLine(s)| - 1] == '\n' &&
              IsLineEnd(s[|ReadLine(s)| - 1]) &&
              ReadLine(s)[..|ReadLine(s)| - 1] == s[..|ReadLine(s)| - 1] &&
              NoLineEnd(s[..|ReadLine(s)| - 1])
    decreases |s|
  {
    if s != [] && !IsLineEnd(s[0]) {
      var t := s[1..];
      ReadLineIsFirstLine(t);
      assert s == [s[0]] + t;
      assert NoLineEnd(s) <==> NoLineEnd(t) by {
        forall i | 0 <= i < |t| ensures t[i] == s[i + 1] { }
      }
      if !NoLineEnd(t) {
        var n := |ReadLine(t)|;
        assert ReadLine(s)[..n] == [s[0]] + ReadLine(t)[..n - 1];
        assert s[..n + 1][..n] == [s[0]] + t[..n - 1];
        assert s[..n] == [s[0]] + t[..n - 1];
      }
    }
  }

  /** A first line without terminators is read through; the rest is read as
      if the file started there. */
  lemma {:induction false} ReadLineAppend(l: string, s: string)
    requires NoLineEnd(l)
    ensures ReadLine(l + s) == l + ReadLine(s)
    decreases |l|
  {
    if l != [] {
      assert (l + s)[0] == l[0];
      assert (l + s)[1..] == l[1..] + s;
      ReadLineAppend(l[1..], s);
      assert [l[0]] + l[1..] == l;
    } else {
      assert l + s == s;
    }
  }

  /** `readline` returns the first line whatever follows its terminator. */
  lemma ReadLineStopsAtTerminator(l: string, t: char, rest: string)
    requires NoLineEnd(l) && IsLineEnd(t)
    ensures ReadLine(l + [t] + rest) == l + "\n"
  {
    assert l + [t] + rest == l + ([t] + rest);
    ReadLineAppend(l, [t] + rest);
  }

  // ---------------------------------------------------------------------
  // `str.endswith`, `str.split`, joining
  // ---------------------------------------------------------------------

  predicate EndsWith(s: string, suffix: string) {
    |suffix| <= |s| && s[|s| - |suffix|..] == suffix
  }

  /** `sep.join(parts)`, for a separator of one character. */
  function Join(parts: seq<string>, sep: char): string
    requires |parts| >= 1
  {
    if |parts| == 1 then parts[0] else parts[0] + [sep] + Join(parts[1..], sep)
  }

  /** `s.split(sep)` for a one-character separator: every occurrence splits,
      so the result has one part more than `s` has separators. */
  function Split(s: string, sep: char): (parts: seq<string>)
    ensures |parts| >= 1
    ensures Join(parts, sep) == s
    ensures forall k :: 0 <= k < |parts| ==> sep !in parts[k]
    decreases |s|
  {
    if s == [] then [""]
    else if s[0] == sep then
      var rest := Split(s[1..], sep);
      assert s == [] + [sep] + Join(rest, sep);
      [""] + rest
    else
      var rest := Split(s[1..], sep);
      var parts := [[s[0]] + rest[0]] + rest[1..];
      assert parts[1..] == rest[1..];
      assert s == [s[0]] + s[1..];
      parts
  }

  /** Splitting undoes joining parts that do not contain the separator. */
  lemma {:induction false} SplitJoin(parts: seq<string>, sep: char)
    requires |parts| >= 1
    requires forall k :: 0 <= k < |parts| ==> sep !in parts[k]
    ensures Split(Join(parts, sep), sep) == parts
    decreases |parts|, |parts[0]|
  {
    var p := parts[0];
    if p != [] {
      var shorter := [p[1..]] + parts[1..];
      SplitJoinShorter(parts, sep);
      SplitJoin(shorter, sep);
      assert [p[0]] + p[1..] == p;
      assert parts == [p] + shorter[1..];
    } else if |parts| > 1 {
      var tail := Join(parts[1..], sep);
      assert Join(parts, sep) == [sep] + tail;
      assert ([sep] + tail)[1..] == tail;
      SplitJoin(parts[1..], sep);
      assert [""] + parts[1..] == parts;
    }
  }

  /** Joining parts whose first one is not empty starts with that part's
      first character, followed by the join of the parts with it removed. */
  lemma SplitJoinShorter(parts: seq<string>, sep: char)
    requires |parts| >= 1 && parts[0] != []
    requires forall k :: 0 <= k < |parts| ==> sep !in parts[k]
    ensures var shorter := [parts[0][1..]] + parts[1..];
            && (forall k :: 0 <= k < |shorter| ==> sep !in shorter[k])
            && Join(parts, sep) == [parts[0][0]] + Join(shorter, sep)
            && parts[0][0] != sep
  {
    var p := parts[0];
    var shorter := [p[1..]] + parts[1..];
    assert shorter[1..] == parts[1..];
    assert p == [p[0]] + p[1..];
    forall k | 0 <= k < |shorter| ensures sep !in shorter[k] {
      if k > 0 { assert shorter[k] == parts[k]; }
    }
  }

  // ---------------------------------------------------------------------
  // `str.replace`
  // ---------------------------------------------------------------------

  /** `pat` occurs in `s` starting at index `i`. */
  predicate OccursAt(s: string, pat: string, i: int) {
    0 <= i && i + |pat| <= |s| && s[i..i + |pat|] == pat
  }

  /** No occurrence in `s` means none in `s[1..]`. */
  lemma NoOccurrenceInTail(s: string, pat: string)
    requires s != []
    requires forall i :: !OccursAt(s, pat, i)
    ensures forall i :: !OccursAt(s[1..], pat, i)
  {
    forall i ensures !OccursAt(s[1..], pat, i) {
      if 0 <= i && i + |pat| <= |s| - 1 {
        assert s[1..][i..i + |pat|] == s[i + 1..i + 1 + |pat|];
        assert !OccursAt(s, pat, i + 1);
      }
    }
  }

  /** `s.replace(pat, rep)`: every occurrence of `pat`, found left to right
      without overlap, is replaced by `rep`. */
  function ReplaceAll(s: string, pat: string, rep: string): (r: string)
    requires |pat| > 0
    decreases |s|
  {
    if |s| < |pat| then s
    else if s[..|pat|] == pat then rep + ReplaceAll(s[|pat|..], pat, rep)
    else [s[0]] + ReplaceAll(s[1..], pat, rep)
  }

  /** Without an occurrence of `pat`, `replace` returns its input unchanged. */
  lemma {:induction false} ReplaceAbsent(s: string, pat: string, rep: string)
    requires |pat| > 0
    requires forall i :: !OccursAt(s, pat, i)
    ensures ReplaceAll(s, pat, rep) == s
    decreases |s|
  {
    if |s| >= |pat| {
      assert !OccursAt(s, pat, 0);
      NoOccurrenceInTail(s, pat);
      ReplaceAbsent(s[1..], pat, rep);
      assert [s[0]] + s[1..] == s;
    }
  }

  /** Replacing by a string of the same length keeps the length. */
  lemma {:induction false} ReplaceSameLength(s: string, pat: string, rep: string)
    requires |pat| > 0 && |rep| == |pat|
    ensures |ReplaceAll(s, pat, rep)| == |s|
    decreases |s|
  {
    if |s| >= |pat| {
      if s[..|pat|] == pat {
        ReplaceSameLength(s[|pat|..], pat, rep);
      } else {
        ReplaceSameLength(s[1..], pat, rep);
      }
    }
  }

  // ---------------------------------------------------------------------
  // `os.path.basename` and `os.path.splitext`
  // ---------------------------------------------------------------------

  /** `os.path.basename(p)`: what follows the last '/'. */
  function Basename(p: string): (r: string)
    ensures |r| <= |p| && r == p[|p| - |r|..]
    ensures '/' !in r
    ensures |r| < |p| ==> p[|p| - |r| - 1] == '/'
    decreases |p|
  {
    if p == [] || p[|p| - 1] == '/' then []
    else
      var q, c := p[..|p| - 1], p[|p| - 1];
      var b := Basename(q);
      assert q[|q| - |b|..] + [c] == p[|q| - |b|..];
      assert |b| < |q| ==> p[|q| - |b| - 1] == q[|q| - |b| - 1];
      b + [c]
  }

  /** The basename of a path in a directory is the entry's name. */
  lemma {:induction false} BasenameOfEntry(dir: string, name: string)
    requires '/' !in name
    ensures Basename(dir + "/" + name) == name
    decreases |name|
  {
    var p := dir + "/" + name;
    if name != [] {
      var init := name[..|name| - 1];
      assert p[..|p| - 1] == dir + "/" + init;
      assert p[|p| - 1] == name[|name| - 1];
      BasenameOfEntry(dir, init);
      assert init + [name[|name| - 1]] == name;
    }
  }

  /** Index of the last '.' in `s`, or -1. */
  function LastDot(s: string): (i: int)
    ensures -1 <= i < |s|
    ensures i >= 0 ==> s[i] == '.'
    ensures forall j :: i < j < |s| ==> s[j] != '.'
    decreases |s|
  {
    if s == [] then -1
    else if s[|s| - 1] == '.' then |s| - 1
    else LastDot(s[..|s| - 1])
  }

  /** `os.path.splitext(name)[0]` for a name without '/': the name without its
      last extension; leading dots do not start an extension, so ".bashrc"
      and "..." have none. */
  function StripExtension(name: string): (r: string)
    ensures |r| <= |name| && r == name[..|r|]
    ensures r != name ==>
              0 < |r| && name[|r|] == '.' && forall j :: |r| < j < |name| ==> name[j] != '.'
  {
    var d := LastDot(name);
    if d >= 0 && !(forall i :: 0 <= i < d ==> name[i] == '.') then name[..d] else name
  }

  /** A file named `stem.ext` with a dot-free extension and a stem that does
      not start with a dot loses exactly ".ext". */
  lemma StripExtensionOfStem(stem: string, ext: string)
    requires |stem| > 0 && stem[0] != '.'
    requires '.' !in ext
    ensures StripExtension(stem + "." + ext) == stem
  {
    var name := stem + "." + ext;
    var d := LastDot(name);
    assert name[|stem|] == '.';
    forall j | |stem| < j < |name| ensures name[j] != '.' {
      assert name[j] == ext[j - |stem| - 1];
    }
    assert d == |stem|;
    assert name[0] == stem[0];
    assert name[..d] == stem;
  }

  /** The last '.' is the one with no '.' after it. */
  lemma LastDotUnique(s: string, d: int)
    requires 0 <= d < |s| && s[d] == '.'
    requires forall j :: d < j < |s| ==> s[j] != '.'
    ensures LastDot(s) == d
  {
    assert s[d] == '.';
  }

  /** A name that does not start with '.' and ends with a suffix starting
      with '.' loses, under `splitext`, exactly the part of the suffix from
      its last '.': what is kept, followed by that part, is the name. */
  lemma StripExtensionOfSuffix(name: string, w: string)
    requires name != [] && name[0] != '.'
    requires w != [] && w[0] == '.' && EndsWith(name, w)
    ensures LastDot(w) >= 0
    ensures StripExtension(name) + w[LastDot(w)..] == name
  {
    var l := LastDot(w);
    assert l >= 0 by {
      assert w[0] == '.';
    }
    var d := |name| - |w| + l;
    assert name[d] == w[l] by {
      assert name[|name| - |w|..][l] == w[l];
    }
    forall j | d < j < |name| ensures name[j] != '.' {
      assert name[j] == name[|name| - |w|..][j - (|name| - |w|)];
    }
    LastDotUnique(name, d);
    assert d > 0 by {
      assert name[0] != '.';
    }
    assert name[..d] + name[d..] == name;
    assert name[d..] == w[l..] by {
      assert name[|name| - |w|..][l..] == w[l..];
    }
  }

  /** Names that end with the same suffix starting with '.', and do not
      start with '.', keep distinct stems under `splitext`. */
  lemma StripExtensionInjective(n1: string, n2: string, w: string)
    requires n1 != [] && n1[0] != '.' && n2 != [] && n2[0] != '.'
    requires w != [] && w[0] == '.' && EndsWith(n1, w) && EndsWith(n2, w)
    ensures StripExtension(n1) == StripExtension(n2) ==> n1 == n2
  {
    StripExtensionOfSuffix(n1, w);
    StripExtensionOfSuffix(n2, w);
  }
}
