/**
 * The pure path rules the player applies to a chosen file: Python's
 * `os.path.splitext` and `os.path.basename` on POSIX paths, `str.lower` on the
 * extension, and the test against the class constant SUPPORTED_FORMATS.
 */
module Paths {

  /** The extensions the player accepts, in the order the class declares them. */
  const SupportedFormats: seq<string> :=
    [".mp3", ".wav", ".flac", ".ogg", ".aac", ".wma", ".m4a", ".aiff", ".opus"]

  /** The POSIX path separator and the extension separator. */
  const Sep: char := '/'
  const ExtSep: char := '.'

  /** `s.rfind(c)` for a single character: the last index of `c` in `s`, or -1. */
  function RFind(s: string, c: char): (r: int)
    ensures -1 <= r < |s|
  {
    if |s| == 0 then -1
    else if s[|s| - 1] == c then |s| - 1
    else RFind(s[..|s| - 1], c)
  }

  /** RFind finds an occurrence of `c`, and none follows it. */
  lemma {:induction false} RFindSpec(s: string, c: char)
    ensures 0 <= RFind(s, c) ==> s[RFind(s, c)] == c
    ensures forall j :: RFind(s, c) < j < |s| ==> s[j] != c
  {
    if |s| > 0 && s[|s| - 1] != c {
      RFindSpec(s[..|s| - 1], c);
    }
  }

  /** The last occurrence is unique: any index holding `c` with no `c` after it is the one RFind finds. */
  lemma RFindIs(s: string, c: char, i: int)
    requires 0 <= i < |s| && s[i] == c
    requires forall j :: i < j < |s| ==> s[j] != c
    ensures RFind(s, c) == i
  {
    RFindSpec(s, c);
  }

  /** Lower-casing of one character, for the ASCII letters. */
  function LowerChar(c: char): char
  {
    if 'A' <= c <= 'Z' then (c as int + ('a' as int - 'A' as int)) as char else c
  }

  /** `s.lower()`: every character lowered, length and order kept. */
  function Lower(s: string): (r: string)
    ensures |r| == |s|
  {
    if |s| == 0 then [] else [LowerChar(s[0])] + Lower(s[1..])
  }

  /** Each character of the lowered string is the lowered character at the same place. */
  lemma {:induction false} LowerAt(s: string)
    ensures forall i :: 0 <= i < |s| ==> Lower(s)[i] == LowerChar(s[i])
  {
    if |s| > 0 {
      LowerAt(s[1..]);
    }
  }

  /** Every character of `p[lo..hi]` is a dot (the leading-dots loop of `splitext`). */
  predicate AllDots(p: string, lo: int, hi: int)
    requires 0 <= lo && hi <= |p|
    decreases hi - lo
  {
    lo >= hi || (p[lo] == ExtSep && AllDots(p, lo + 1, hi))
  }

  /** AllDots says what its name says. */
  lemma {:induction false} AllDotsSpec(p: string, lo: int, hi: int)
    requires 0 <= lo && hi <= |p|
    ensures AllDots(p, lo, hi) <==> forall k :: lo <= k < hi ==> p[k] == ExtSep
    decreases hi - lo
  {
    if lo < hi {
      AllDotsSpec(p, lo + 1, hi);
    }
  }

  /**
   * `os.path.splitext(p)` on a POSIX path: the extension starts at the last
   * dot that follows the last separator, provided some character of the base
   * name before that dot is not a dot (a name made only of leading dots has
   * no extension); otherwise the extension is empty.
   */
  function SplitExt(p: string): (r: (string, string))
  {
    var sepIndex := RFind(p, Sep);
    var dotIndex := RFind(p, ExtSep);
    if dotIndex > sepIndex && !AllDots(p, sepIndex + 1, dotIndex) then
      (p[..dotIndex], p[dotIndex..])
    else
      (p, [])
  }

  /**
   * Root and extension concatenate back to the path; the extension is empty
   * or starts with its only dot and holds no separator.
   */
  lemma SplitExtSpec(p: string)
    ensures SplitExt(p).0 + SplitExt(p).1 == p
    ensures var e := SplitExt(p).1; e == [] || (e[0] == ExtSep && Sep !in e && ExtSep !in e[1..])
  {
    RFindSpec(p, Sep);
    RFindSpec(p, ExtSep);
    var dotIndex := RFind(p, ExtSep);
    if dotIndex > RFind(p, Sep) {
      assert p[..dotIndex] + p[dotIndex..] == p;
    }
  }

  /** `os.path.splitext(p)[1]`. */
  function Ext(p: string): string
  {
    SplitExt(p).1
  }

  /** `os.path.basename(p)` on a POSIX path: everything after the last separator. */
  function Basename(p: string): (b: string)
    ensures Sep !in b
    ensures |b| <= |p| && b == p[|p| - |b|..]
    ensures |b| < |p| ==> p[|p| - |b| - 1] == Sep
  {
    RFindSpec(p, Sep);
    p[RFind(p, Sep) + 1..]
  }

  /** The test `os.path.splitext(path)[1].lower() in SUPPORTED_FORMATS`. */
  predicate IsSupported(path: string)
  {
    Lower(Ext(path)) in SupportedFormats
  }

  /**
   * A file `name + ext` in directory `dir`, whose extension has a single dot
   * and whose name has at least one character other than a dot, has exactly
   * `ext` as its extension, whatever the directory holds.
   */
  lemma ExtOfFile(dir: string, name: string, ext: string)
    requires Sep !in name && Sep !in ext
    requires |ext| > 0 && ext[0] == ExtSep && ExtSep !in ext[1..]
    requires exists k :: 0 <= k < |name| && name[k] != ExtSep
    ensures Ext(dir + [Sep] + name + ext) == ext
  {
    var p := dir + [Sep] + name + ext;
    var s := |dir|;
    var d := |dir| + 1 + |name|;
    assert p[s] == Sep;
    forall j | s < j < |p| ensures p[j] != Sep {
      if j < d { assert p[j] == name[j - s - 1]; } else { assert p[j] == ext[j - d]; }
    }
    RFindIs(p, Sep, s);
    assert p[d] == ExtSep;
    forall j | d < j < |p| ensures p[j] != ExtSep {
      assert p[j] == ext[j - d] == ext[1..][j - d - 1];
    }
    RFindIs(p, ExtSep, d);
    var k :| 0 <= k < |name| && name[k] != ExtSep;
    assert p[s + 1 + k] == name[k];
    AllDotsSpec(p, s + 1, d);
    assert p[d..] == ext;
  }

  /**
   * A file whose whole name is an extension (a dot file such as "/music/.mp3")
   * has no extension at all, so it is never supported.
   */
  lemma DotFileHasNoExt(dir: string, ext: string)
    requires Sep !in ext
    requires |ext| > 0 && ext[0] == ExtSep && ExtSep !in ext[1..]
    ensures Ext(dir + [Sep] + ext) == []
    ensures !IsSupported(dir + [Sep] + ext)
  {
    var p := dir + [Sep] + ext;
    var s := |dir|;
    forall j | s < j < |p| ensures p[j] != Sep {
      assert p[j] == ext[j - s - 1];
    }
    RFindIs(p, Sep, s);
    forall j | s + 1 < j < |p| ensures p[j] != ExtSep {
      assert p[j] == ext[1..][j - s - 2];
    }
    RFindIs(p, ExtSep, s + 1);
    assert Ext(p) == [];
    assert Lower([]) == [];
  }

  /**
   * Whether a named file is accepted depends on its extension alone, compared
   * after lowering: "/m/a.MP3" and "/m/b.mp3" are both accepted.
   */
  lemma SupportedIffExtension(dir: string, name: string, ext: string)
    requires Sep !in name && Sep !in ext
    requires |ext| > 0 && ext[0] == ExtSep && ExtSep !in ext[1..]
    requires exists k :: 0 <= k < |name| && name[k] != ExtSep
    ensures IsSupported(dir + [Sep] + name + ext) <==> Lower(ext) in SupportedFormats
  {
    ExtOfFile(dir, name, ext);
  }

  /** The elements of `xs` that `keep` accepts, in their original order. */
  function Filter(xs: seq<string>, keep: string -> bool): (r: seq<string>)
    ensures |r| <= |xs|
  {
    if |xs| == 0 then []
    else if keep(xs[0]) then [xs[0]] + Filter(xs[1..], keep)
    else Filter(xs[1..], keep)
  }

  /** The filter distributes over concatenation, so it keeps the input's order. */
  lemma {:induction false} FilterAppend(a: seq<string>, b: seq<string>, keep: string -> bool)
    ensures Filter(a + b, keep) == Filter(a, keep) + Filter(b, keep)
  {
    if |a| > 0 {
      assert (a + b)[1..] == a[1..] + b;
      FilterAppend(a[1..], b, keep);
    } else {
      assert a + b == b;
    }
  }

  /** The filter of one more prefix: the next element is appended exactly when accepted. */
  lemma FilterPrefixStep(xs: seq<string>, i: int, keep: string -> bool)
    requires 0 <= i < |xs|
    ensures Filter(xs[..i + 1], keep) == Filter(xs[..i], keep) + (if keep(xs[i]) then [xs[i]] else [])
  {
    assert xs[..i + 1] == xs[..i] + [xs[i]];
    FilterAppend(xs[..i], [xs[i]], keep);
    assert [xs[i]][1..] == [];
  }

  /** An element is kept if and only if it is in `xs` and accepted. */
  lemma {:induction false} FilterMembership(xs: seq<string>, keep: string -> bool, x: string)
    ensures x in Filter(xs, keep) <==> x in xs && keep(x)
  {
    if |xs| > 0 {
      FilterMembership(xs[1..], keep, x);
      assert xs == [xs[0]] + xs[1..];
    }
  }

  /** The chosen files the add loop appends to the playlist, in order. */
  function Supported(files: seq<string>): seq<string>
  {
    Filter(files, IsSupported)
  }

  /** `path.lower().endswith('.mp3')`: the test `load_playlist` applies before reading a length. */
  predicate HasMp3Suffix(path: string)
  {
    |path| >= 4 && Lower(path)[|path| - 4..] == ".mp3"
  }

  /**
   * Every path the add loop treats as an MP3 (its extension lowers to
   * ".mp3") also passes the suffix test of `load_playlist`.
   */
  lemma Mp3ExtensionHasMp3Suffix(p: string)
    requires Lower(Ext(p)) == ".mp3"
    ensures HasMp3Suffix(p)
  {
    SplitExtSpec(p);
    var e := Ext(p);
    var n := |p|;
    LowerAt(p);
    LowerAt(e);
    forall i | 0 <= i < 4
      ensures Lower(p)[n - 4..][i] == ".mp3"[i]
    {
      assert p[n - 4 + i] == e[i];
    }
  }

  /**
   * The converse fails: a dot file such as "/m/.mp3" passes the suffix test
   * but has no extension, so the add loop rejects it.
   */
  lemma DotFileHasMp3Suffix()
    ensures HasMp3Suffix("/m/.mp3") && !IsSupported("/m/.mp3")
  {
    DotFileHasNoExt("/m", ".mp3");
    assert "/m" + [Sep] + ".mp3" == "/m/.mp3";
    LowerAt("/m/.mp3");
    assert Lower("/m/.mp3")[3..] == ".mp3";
  }
}
