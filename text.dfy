/** String helpers shared by the Go and the Python halves of the system:
    the three whitespace classes they use, trimming, splitting on one
    character, ASCII lower-casing, substring search and decimal rendering. */
module Text {

  datatype Option<+T> = None | Some(value: T)

  /** The error-or-value return of the Go functions: `error` is the message. */
  datatype Result<+T> = Ok(value: T) | Err(error: string)

  /** Go's unicode.IsSpace, which strings.TrimSpace trims. */
  predicate GoIsSpace(c: char)
  {
    c == ' ' || c == '\t' || c == '\n' || c == '\U{000B}' || c == '\U{000C}' || c == '\r'
    || c == '\U{0085}' || c == '\U{00A0}' || c == '\U{1680}'
    || ('\U{2000}' <= c <= '\U{200A}') || c == '\U{2028}' || c == '\U{2029}'
    || c == '\U{202F}' || c == '\U{205F}' || c == '\U{3000}'
  }

  /** The class `\s` of Go's regexp package (RE2): ASCII only, without \v. */
  predicate ReIsSpace(c: char)
  {
    c == ' ' || c == '\t' || c == '\n' || c == '\U{000C}' || c == '\r'
  }

  /** Python's str.isspace, which str.strip() trims. */
  predicate PyIsSpace(c: char)
  {
    GoIsSpace(c) || ('\U{001C}' <= c <= '\U{001F}')
  }

  lemma ReSpaceIsGoSpace(c: char)
    ensures ReIsSpace(c) ==> GoIsSpace(c)
  {
  }

  function TrimLeftWith(s: string, isSpace: char -> bool): (r: string)
    ensures |r| <= |s|
    ensures r != [] ==> !isSpace(r[0])
    ensures forall i :: 0 <= i < |s| - |r| ==> isSpace(s[i])
  {
    if s == [] || !isSpace(s[0]) then s else TrimLeftWith(s[1..], isSpace)
  }

  lemma {:induction false} TrimLeftWithSuffix(s: string, isSpace: char -> bool)
    ensures TrimLeftWith(s, isSpace) == s[|s| - |TrimLeftWith(s, isSpace)|..]
  {
    if s != [] && isSpace(s[0]) {
      TrimLeftWithSuffix(s[1..], isSpace);
    }
  }

  function TrimRightWith(s: string, isSpace: char -> bool): (r: string)
    ensures |r| <= |s|
    ensures r != [] ==> !isSpace(r[|r| - 1]) && r[0] == s[0]
    ensures forall i :: |r| <= i < |s| ==> isSpace(s[i])
  {
    if s == [] || !isSpace(s[|s| - 1]) then s else TrimRightWith(s[..|s| - 1], isSpace)
  }

  lemma {:induction false} TrimRightWithPrefix(s: string, isSpace: char -> bool)
    ensures TrimRightWith(s, isSpace) == s[..|TrimRightWith(s, isSpace)|]
  {
    if s != [] && isSpace(s[|s| - 1]) {
      TrimRightWithPrefix(s[..|s| - 1], isSpace);
    }
  }

  /** Removes leading and trailing characters of the class `isSpace`. */
  function TrimWith(s: string, isSpace: char -> bool): (r: string)
    ensures |r| <= |s|
    ensures r != [] ==> !isSpace(r[0]) && !isSpace(r[|r| - 1])
  {
    TrimRightWith(TrimLeftWith(s, isSpace), isSpace)
  }

  /** The trim is the piece of `s` starting after the leading spaces. */
  lemma TrimWithSlice(s: string, isSpace: char -> bool) returns (a: nat)
    ensures a + |TrimWith(s, isSpace)| <= |s|
    ensures TrimWith(s, isSpace) == s[a..a + |TrimWith(s, isSpace)|]
    ensures forall i :: 0 <= i < a ==> isSpace(s[i])
    ensures forall i :: a + |TrimWith(s, isSpace)| <= i < |s| ==> isSpace(s[i])
  {
    var l := TrimLeftWith(s, isSpace);
    a := |s| - |l|;
    assert l == s[a..] && forall i :: 0 <= i < a ==> isSpace(s[i]) by {
      TrimLeftWithSuffix(s, isSpace);
    }
    var r := TrimRightWith(l, isSpace);
    assert |r| <= |l| && r == l[..|r|] && forall i :: |r| <= i < |l| ==> isSpace(l[i]) by {
      TrimRightWithPrefix(l, isSpace);
    }
    assert TrimWith(s, isSpace) == r;
    TrimPieces(s, a, l, r, isSpace);
  }

  /** The shape of a trim: spaces, a kept piece, spaces. */
  lemma TrimPieces(s: string, a: nat, l: string, r: string, isSpace: char -> bool)
    requires a <= |s| && l == s[a..]
    requires |r| <= |l| && r == l[..|r|]
    requires forall i :: |r| <= i < |l| ==> isSpace(l[i])
    ensures a + |r| <= |s| && r == s[a..a + |r|]
    ensures forall i :: a + |r| <= i < |s| ==> isSpace(s[i])
  {
    PrefixOfSuffix(s, a, l, r);
    forall i | a + |r| <= i < |s| ensures isSpace(s[i]) {
      assert s[i] == l[i - a];
    }
  }

  /** A prefix of the suffix of `s` from `a` is the slice of `s` from `a`. */
  lemma PrefixOfSuffix(s: string, a: nat, l: string, r: string)
    requires a <= |s| && l == s[a..]
    requires |r| <= |l| && r == l[..|r|]
    ensures a + |r| <= |s| && r == s[a..a + |r|]
  {
    forall k | 0 <= k < |r| ensures r[k] == s[a + k] {
      assert r[k] == l[k];
    }
  }

  /** A string with no space at either end is its own trim. */
  lemma TrimWithFixed(s: string, isSpace: char -> bool)
    requires s != [] ==> !isSpace(s[0]) && !isSpace(s[|s| - 1])
    ensures TrimWith(s, isSpace) == s
  {
  }

  /** A string made only of spaces trims to the empty string, and only such a string does. */
  lemma TrimWithEmpty(s: string, isSpace: char -> bool)
    ensures TrimWith(s, isSpace) == [] <==> forall i :: 0 <= i < |s| ==> isSpace(s[i])
  {
    var a := TrimWithSlice(s, isSpace);
    if TrimWith(s, isSpace) != [] {
      assert !isSpace(s[a]);
    }
  }

  /** Trimming twice trims no more than trimming once. */
  lemma TrimWithIdempotent(s: string, isSpace: char -> bool)
    ensures TrimWith(TrimWith(s, isSpace), isSpace) == TrimWith(s, isSpace)
  {
    TrimWithFixed(TrimWith(s, isSpace), isSpace);
  }

  function GoTrimSpace(s: string): (r: string)
  {
    TrimWith(s, GoIsSpace)
  }

  function PyStrip(s: string): (r: string)
  {
    TrimWith(s, PyIsSpace)
  }

  predicate IsGoBlank(s: string)
  {
    GoTrimSpace(s) == []
  }

  predicate IsPyBlank(s: string)
  {
    PyStrip(s) == []
  }

  /** Go's strings.Split with a one-character separator: the pieces between
      separators, one more piece than there are separators. */
  function Split(s: string, sep: char): (parts: seq<string>)
    ensures |parts| >= 1
    ensures forall i :: 0 <= i < |parts| ==> sep !in parts[i]
  {
    if sep !in s then [s]
    else
      var k := IndexOf(s, sep);
      [s[..k]] + Split(s[k + 1..], sep)
  }

  /** The first index of `c` in `s`. */
  function IndexOf(s: string, c: char): (k: nat)
    requires c in s
    ensures k < |s| && s[k] == c
    ensures forall j :: 0 <= j < k ==> s[j] != c
  {
    if s[0] == c then 0 else 1 + IndexOf(s[1..], c)
  }

  lemma IndexOfAt(s: string, c: char, k: nat)
    requires k < |s| && s[k] == c && forall j :: 0 <= j < k ==> s[j] != c
    ensures IndexOf(s, c) == k
  {
  }

  /** A piece without the separator, then the separator, splits off first. */
  lemma SplitCons(piece: string, sep: char, rest: string)
    requires sep !in piece
    ensures Split(piece + [sep] + rest, sep) == [piece] + Split(rest, sep)
  {
    var s := piece + [sep] + rest;
    assert s[|piece|] == sep;
    forall j | 0 <= j < |piece| ensures s[j] != sep {
      assert s[j] == piece[j];
    }
    IndexOfAt(s, sep, |piece|);
    assert s[..|piece|] == piece && s[|piece| + 1..] == rest;
  }

  /** Joining the pieces of a split with the separator gives back the string. */
  lemma {:induction false} SplitJoin(s: string, sep: char)
    ensures Join(Split(s, sep), sep) == s
  {
    if sep in s {
      var k := IndexOf(s, sep);
      var rest := Split(s[k + 1..], sep);
      SplitJoin(s[k + 1..], sep);
      var parts := [s[..k]] + rest;
      assert parts[1..] == rest;
      assert Join(parts, sep) == s[..k] + [sep] + Join(rest, sep);
      assert s == s[..k] + [sep] + s[k + 1..];
    }
  }

  function Join(parts: seq<string>, sep: char): string
  {
    if parts == [] then []
    else if |parts| == 1 then parts[0]
    else parts[0] + [sep] + Join(parts[1..], sep)
  }

  /** Every piece appended with a terminating newline, as the column-list
      writers emit them. */
  function TerminatedLines(lines: seq<string>): string
  {
    if lines == [] then [] else lines[0] + "\n" + TerminatedLines(lines[1..])
  }

  lemma NotInSlice(s: string, a: nat, b: nat, c: char)
    requires c !in s && a <= b <= |s|
    ensures c !in s[a..b]
  {
    assert forall i :: 0 <= i < b - a ==> s[a..b][i] == s[a + i];
  }

  function AsciiLowerChar(c: char): char
  {
    if 'A' <= c <= 'Z' then (c as int + 32) as char else c
  }

  /** Python's str.lower, restricted to ASCII letters. */
  function AsciiLower(s: string): (r: string)
    ensures |r| == |s|
    ensures forall i :: 0 <= i < |s| ==> r[i] == AsciiLowerChar(s[i])
  {
    if s == [] then [] else [AsciiLowerChar(s[0])] + AsciiLower(s[1..])
  }

  predicate StartsWith(s: string, prefix: string)
  {
    |prefix| <= |s| && s[..|prefix|] == prefix
  }

  predicate EndsWith(s: string, suffix: string)
  {
    |suffix| <= |s| && s[|s| - |suffix|..] == suffix
  }

  /** Python's `sub in s`. */
  predicate ContainsSubstring(s: string, sub: string)
  {
    StartsWith(s, sub) || (s != [] && ContainsSubstring(s[1..], sub))
  }

  /** Whatever surrounds a piece of text, the piece is a substring of the whole. */
  lemma {:induction false} ContainsSubstringMiddle(pre: string, mid: string, post: string)
    ensures ContainsSubstring(pre + mid + post, mid)
  {
    if pre == [] {
      assert pre + mid + post == mid + post;
      assert (mid + post)[..|mid|] == mid;
    } else {
      ContainsSubstringMiddle(pre[1..], mid, post);
      assert (pre + mid + post)[1..] == pre[1..] + mid + post;
    }
  }

  function DigitChar(d: nat): char
    requires d < 10
  {
    ('0' as int + d) as char
  }

  /** The decimal rendering of a natural number, as Go's %d and Python's str. */
  function NatToDecimal(n: nat): (r: string)
    ensures |r| >= 1
    ensures forall i :: 0 <= i < |r| ==> '0' <= r[i] <= '9'
    ensures r[0] != '0' || n == 0
  {
    if n < 10 then [DigitChar(n)] else NatToDecimal(n / 10) + [DigitChar(n % 10)]
  }

  function IntToDecimal(i: int): (r: string)
  {
    if i < 0 then "-" + NatToDecimal(-i) else NatToDecimal(i)
  }

  function DigitsValue(s: string): nat
    requires forall i :: 0 <= i < |s| ==> '0' <= s[i] <= '9'
  {
    if s == [] then 0 else DigitsValue(s[..|s| - 1]) * 10 + (s[|s| - 1] as int - '0' as int)
  }

  /** Reading a rendered number back gives the number. */
  lemma {:induction false} NatToDecimalValue(n: nat)
    ensures DigitsValue(NatToDecimal(n)) == n
  {
    if n >= 10 {
      NatToDecimalValue(n / 10);
      var r := NatToDecimal(n);
      assert r[..|r| - 1] == NatToDecimal(n / 10);
    }
  }

  predicate AllDigits(s: string)
  {
    forall i :: 0 <= i < |s| ==> '0' <= s[i] <= '9'
  }
}
