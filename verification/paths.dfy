/**
 The string rules the viewer applies to scan paths and to the jump-to entry:
 the POSIX base name of a path, Python's `str.strip()` with no argument,
 and the subject id, which is the base name cut at its first underscore.
 */
module Paths {

  /** The code points Python 3 counts as whitespace, listed one by one. */
  const PythonWhitespace: set<int> := {
    0x09, 0x0A, 0x0B, 0x0C, 0x0D, 0x1C, 0x1D, 0x1E, 0x1F, 0x20, 0x85, 0xA0,
    0x1680, 0x2000, 0x2001, 0x2002, 0x2003, 0x2004, 0x2005, 0x2006, 0x2007,
    0x2008, 0x2009, 0x200A, 0x2028, 0x2029, 0x202F, 0x205F, 0x3000 }

  /** Python's `str.isspace()` for one character: exactly the characters
      `str.strip()` removes when it is called without an argument. */
  predicate IsSpace(c: char) {
    var n := c as int;
    || (0x09 <= n <= 0x0D)
    || (0x1C <= n <= 0x20)
    || n == 0x85
    || n == 0xA0
    || n == 0x1680
    || (0x2000 <= n <= 0x200A)
    || n == 0x2028
    || n == 0x2029
    || n == 0x202F
    || n == 0x205F
    || n == 0x3000
  }

  /** The ranges of `IsSpace` cover exactly the listed whitespace code points. */
  lemma IsSpaceIsPythonWhitespace(c: char)
    ensures IsSpace(c) <==> c as int in PythonWhitespace
  {
  }

  /** Leading whitespace removed: the longest suffix that does not start with a space. */
  function TrimLeft(s: string): (r: string)
    ensures |r| <= |s| && r == s[|s| - |r|..]
    ensures forall i :: 0 <= i < |s| - |r| ==> IsSpace(s[i])
    ensures r == [] || !IsSpace(r[0])
  {
    if |s| == 0 || !IsSpace(s[0]) then s else TrimLeft(s[1..])
  }

  /** Trailing whitespace removed: the longest prefix that does not end with a space. */
  function TrimRight(s: string): (r: string)
    ensures r <= s
    ensures forall i :: |r| <= i < |s| ==> IsSpace(s[i])
    ensures r == [] || !IsSpace(r[|r| - 1])
  {
    if |s| == 0 || !IsSpace(s[|s| - 1]) then s else TrimRight(s[..|s| - 1])
  }

  /** `s.strip()`: empty exactly when `s` is all whitespace, and otherwise
      a piece of `s` that neither starts nor ends with whitespace. */
  function Strip(s: string): (r: string)
    ensures |r| <= |s|
    ensures r == [] <==> forall i :: 0 <= i < |s| ==> IsSpace(s[i])
    ensures r != [] ==> !IsSpace(r[0]) && !IsSpace(r[|r| - 1])
  {
    var t := TrimLeft(s);
    var r := TrimRight(t);
    assert r != [] ==> r[0] == t[0];
    assert t == [] ==> forall i :: 0 <= i < |s| ==> IsSpace(s[i]);
    r
  }

  /** Leading whitespace before a word is exactly what TrimLeft drops. */
  lemma TrimLeftDropsPadding(before: string, rest: string)
    requires forall i :: 0 <= i < |before| ==> IsSpace(before[i])
    requires rest != [] && !IsSpace(rest[0])
    ensures TrimLeft(before + rest) == rest
  {
    var s := before + rest;
    var t := TrimLeft(s);
    assert s[|before|] == rest[0];
    assert forall i :: 0 <= i < |before| ==> s[i] == before[i];
    assert |t| == |rest|;
    assert s[|s| - |rest|..] == rest;
  }

  /** Trailing whitespace after a word is exactly what TrimRight drops. */
  lemma TrimRightDropsPadding(rest: string, after: string)
    requires forall i :: 0 <= i < |after| ==> IsSpace(after[i])
    requires rest != [] && !IsSpace(rest[|rest| - 1])
    ensures TrimRight(rest + after) == rest
  {
    var s := rest + after;
    var t := TrimRight(s);
    assert s[|rest| - 1] == rest[|rest| - 1];
    assert forall i :: |rest| <= i < |s| ==> s[i] == after[i - |rest|];
    assert |t| == |rest|;
    assert s[..|rest|] == rest;
  }

  /** Stripping removes exactly the whitespace padding around an unpadded core. */
  lemma StripRemovesPadding(before: string, core: string, after: string)
    requires forall i :: 0 <= i < |before| ==> IsSpace(before[i])
    requires forall i :: 0 <= i < |after| ==> IsSpace(after[i])
    requires core != [] && !IsSpace(core[0]) && !IsSpace(core[|core| - 1])
    ensures Strip(before + core + after) == core
  {
    assert before + core + after == before + (core + after);
    TrimLeftDropsPadding(before, core + after);
    TrimRightDropsPadding(core, after);
  }

  /** Where the base name of `p[..n]` starts: just after the last `/` before `n`. */
  function BaseStart(p: string, n: nat): (k: nat)
    requires n <= |p|
    ensures k <= n
    ensures forall i :: k <= i < n ==> p[i] != '/'
    ensures k > 0 ==> p[k - 1] == '/'
    decreases n
  {
    if n == 0 || p[n - 1] == '/' then n else BaseStart(p, n - 1)
  }

  /** `os.path.basename` on POSIX: the text after the last `/`, a suffix of
      the path with no slash in it. */
  function BaseName(p: string): (r: string)
    ensures '/' !in r
    ensures |r| <= |p| && r == p[|p| - |r|..]
  {
    var k := BaseStart(p, |p|);
    assert forall i :: 0 <= i < |p| - k ==> p[k..][i] == p[k + i];
    p[k..]
  }

  /** The base name is the longest slash-free suffix: it is either the whole
      path or it starts right after a `/`. */
  lemma BaseNameFollowsSlash(p: string)
    ensures |BaseName(p)| < |p| ==> p[|p| - |BaseName(p)| - 1] == '/'
  {
    var k := BaseStart(p, |p|);
  }

  /** Where the first field of `s` starting from `n` ends: at the first `_` at or after `n`. */
  function FieldEnd(s: string, n: nat): (k: nat)
    requires n <= |s|
    ensures n <= k <= |s|
    ensures forall i :: n <= i < k ==> s[i] != '_'
    ensures k < |s| ==> s[k] == '_'
    decreases |s| - n
  {
    if n == |s| || s[n] == '_' then n else FieldEnd(s, n + 1)
  }

  /** `s.split("_")[0]`: the text before the first underscore, or all of `s`. */
  function FirstField(s: string): (r: string)
    ensures r <= s
    ensures '_' !in r
    ensures |r| < |s| ==> s[|r|] == '_'
  {
    var k := FieldEnd(s, 0);
    assert forall i :: 0 <= i < k ==> s[..k][i] == s[i];
    s[..k]
  }

  /** The subject id of a scan path: its base name cut at the first underscore. */
  function SubjectId(path: string): (r: string)
    ensures '_' !in r && '/' !in r
    ensures r <= BaseName(path)
    ensures '_' !in BaseName(path) ==> r == BaseName(path)
    ensures |r| < |BaseName(path)| ==> BaseName(path)[|r|] == '_'
  {
    FirstField(BaseName(path))
  }

  /** The base name of `dir/name` is `name` when `name` has no slash. */
  lemma BaseNameAfterSlash(dir: string, name: string)
    requires '/' !in name
    ensures BaseName(dir + "/" + name) == name
  {
    var p := dir + "/" + name;
    var r := BaseName(p);
    BaseNameFollowsSlash(p);
    assert p[|dir|] == '/';
    assert r == p[|p| - |name|..] == name;
  }

  /** A path without any slash is its own base name. */
  lemma BaseNameOfPlainName(name: string)
    requires '/' !in name
    ensures BaseName(name) == name
  {
    BaseNameFollowsSlash(name);
  }

  /** The first field of `id_rest` is `id` when `id` has no underscore. */
  lemma FirstFieldBeforeUnderscore(id: string, rest: string)
    requires '_' !in id
    ensures FirstField(id + "_" + rest) == id
  {
    var s := id + "_" + rest;
    var r := FirstField(s);
    assert s[|id|] == '_';
    assert r == s[..|id|] == id;
  }

  /** Scan files are named `<dir>/<id>_<suffix>`; the id is recovered exactly. */
  lemma SubjectIdOfScanName(dir: string, id: string, suffix: string)
    requires '_' !in id && '/' !in id && '/' !in suffix
    ensures SubjectId(dir + "/" + id + "_" + suffix) == id
  {
    var name := id + "_" + suffix;
    assert '/' !in name by {
      forall i | 0 <= i < |name| ensures name[i] != '/' {
        if i < |id| { assert name[i] == id[i]; }
        else if i > |id| { assert name[i] == suffix[i - |id| - 1]; }
      }
    }
    assert dir + "/" + id + "_" + suffix == dir + "/" + name;
    BaseNameAfterSlash(dir, name);
    FirstFieldBeforeUnderscore(id, suffix);
  }

}
