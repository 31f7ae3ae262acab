/** The slash-separated path helpers the formatters use to name their
    output: Go's filepath.Base, filepath.Ext and strings.TrimSuffix, and
    Python's Path.stem and Path.name for the same purpose. */
module Paths {
  import opened Text

  /** The prefix of `s` left after removing trailing '/' characters. */
  function TrimTrailingSlashes(s: string): (r: string)
    ensures |r| <= |s| && r == s[..|r|]
    ensures r == [] || r[|r| - 1] != '/'
    ensures forall i :: |r| <= i < |s| ==> s[i] == '/'
  {
    if s == [] || s[|s| - 1] != '/' then s else TrimTrailingSlashes(s[..|s| - 1])
  }

  /** The index just after the last '/' of `s`, or 0 when there is none. */
  function AfterLastSlash(s: string): (k: nat)
    ensures k <= |s|
    ensures k > 0 ==> s[k - 1] == '/'
    ensures forall i :: k <= i < |s| ==> s[i] != '/'
  {
    if s == [] then 0 else if s[|s| - 1] == '/' then |s| else AfterLastSlash(s[..|s| - 1])
  }

  /** filepath.Base: the last element of the path; "." for the empty
      path and "/" for a path of slashes only. */
  function Base(path: string): (name: string)
    ensures name != []
  {
    if path == [] then "."
    else
      var t := TrimTrailingSlashes(path);
      if t == [] then "/" else t[AfterLastSlash(t)..]
  }

  /** The last element of a path with some other character at its end
      has no slash and is a suffix of the path. */
  lemma BaseIsLastElement(path: string)
    requires path != [] && path[|path| - 1] != '/'
    ensures '/' !in Base(path)
    ensures EndsWith(path, Base(path))
  {
    var k := AfterLastSlash(path);
    assert Base(path) == path[k..];
    assert path[|path| - |path[k..]|..] == path[k..];
  }

  /** The index of the last '.' of `name`, if any. */
  function LastDot(name: string): (k: Option<nat>)
    ensures k.Some? ==> k.value < |name| && name[k.value] == '.'
    ensures k.Some? ==> forall i :: k.value < i < |name| ==> name[i] != '.'
    ensures k.None? ==> '.' !in name
  {
    if name == [] then None
    else if name[|name| - 1] == '.' then Some(|name| - 1)
    else LastDot(name[..|name| - 1])
  }

  /** filepath.Ext on a file name without slashes: the suffix from the
      last '.', or "" when there is no dot. */
  function Ext(name: string): string
  {
    match LastDot(name)
    case None => ""
    case Some(k) => name[k..]
  }

  /** strings.TrimSuffix */
  function TrimSuffix(s: string, suffix: string): string
  {
    if EndsWith(s, suffix) then s[..|s| - |suffix|] else s
  }

  /** The base name without its extension, as FormatFile computes it and
      as Path.stem does for names with at most one leading dot. */
  function Stem(name: string): string
  {
    TrimSuffix(name, Ext(name))
  }

  /** The stem and the extension put back together give the name, and
      the extension is empty or a '.' followed by no other '.'. */
  lemma StemExt(name: string)
    ensures Stem(name) + Ext(name) == name
    ensures Ext(name) == [] || (Ext(name)[0] == '.' && '.' !in Ext(name)[1..])
  {
    match LastDot(name)
    case None =>
    case Some(k) =>
      assert name[|name| - |name[k..]|..] == name[k..];
      assert name[..k] + name[k..] == name;
  }

  /** filepath.Join for a directory and a file name without slashes. */
  function JoinPath(dir: string, name: string): string
  {
    dir + "/" + name
  }

  /** pathlib's Path(path).name: the last element, "" for the root and
      for the empty path. */
  function PyName(path: string): string
  {
    var b := Base(path);
    if b == "." || b == "/" then "" else b
  }

  /** The last index of c in s, if any. */
  function LastIndexOf(s: string, c: char): (k: Option<nat>)
    ensures k.Some? ==> k.value < |s| && s[k.value] == c
    ensures k.Some? ==> forall i :: k.value < i < |s| ==> s[i] != c
    ensures k.None? ==> c !in s
  {
    if s == [] then None
    else if s[|s| - 1] == c then Some(|s| - 1)
    else LastIndexOf(s[..|s| - 1], c)
  }

  /** pathlib's stem: the name without its last suffix, where a suffix is
      a '.' that is neither the first nor the last character. */
  function PyStem(name: string): string
  {
    match LastIndexOf(name, '.')
    case Some(i) => if 0 < i < |name| - 1 then name[..i] else name
    case None => name
  }

  /** A name with a suffix loses exactly that suffix; a name whose only
      dot leads or trails keeps its whole text. */
  lemma PyStemSpec(name: string)
    ensures PyStem(name) == name || (exists i :: 0 < i < |name| - 1 && name[i] == '.' && PyStem(name) == name[..i])
    ensures |name| >= 1 && name[0] == '.' && '.' !in name[1..] ==> PyStem(name) == name
    ensures |name| >= 1 && name[|name| - 1] == '.' ==> PyStem(name) == name
  {
    if |name| >= 1 && name[0] == '.' && '.' !in name[1..] {
      match LastIndexOf(name, '.')
      case Some(i) =>
        if i > 0 {
          assert name[1..][i - 1] == '.';
        }
      case None =>
    }
  }

  /** Names built as prefix + name + suffix start with the prefix, end
      with the name and the suffix, and differ for different names. */
  lemma FramedNames(prefix: string, a: string, b: string, suffix: string)
    ensures StartsWith(prefix + a + suffix, prefix)
    ensures EndsWith(prefix + a + suffix, a + suffix)
    ensures prefix + a + suffix == prefix + b + suffix ==> a == b
  {
    var x := prefix + a + suffix;
    assert x == prefix + (a + suffix);
    assert x[..|prefix|] == prefix;
    assert x[|x| - |a + suffix|..] == a + suffix;
    if x == prefix + b + suffix {
      assert a == x[|prefix|..|prefix| + |a|];
      assert b == (prefix + b + suffix)[|prefix|..|prefix| + |b|];
    }
  }

  lemma OutputPathParts(dir: string, stem: string, sheet: string)
    ensures JoinPath(dir, stem + "-" + sheet + ".xlsx") == JoinPath(dir, stem + "-") + sheet + ".xlsx"
  {
  }
}
