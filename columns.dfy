/** A1 column letters: the bijective base-26 numbering "A".."Z", "AA"..
    used by both spreadsheet editors to address columns. Indices are 0-based. */
module Columns {

  /** The accumulator of columnToIndex: each letter contributes
      `c - 'A' + 1` to a base-26 number, read left to right. */
  function LetterValue(s: string): int
  {
    if s == [] then 0 else LetterValue(s[..|s| - 1]) * 26 + (s[|s| - 1] as int - 'A' as int + 1)
  }

  /** columnToIndex: the 0-based index named by a column string. */
  function ColumnToIndex(column: string): int
  {
    LetterValue(column) - 1
  }

  function LetterOf(d: int): char
    requires 0 <= d < 26
  {
    ('A' as int + d) as char
  }

  /** indexToColumn: prepend `'A' + index % 26` and continue with
      `index / 26 - 1` while the index is not negative. */
  function IndexToColumn(index: int): string
    decreases index + 1
  {
    if index < 0 then "" else IndexToColumn(index / 26 - 1) + [LetterOf(index % 26)]
  }

  predicate IsLetters(s: string)
  {
    forall i :: 0 <= i < |s| ==> 'A' <= s[i] <= 'Z'
  }

  /** Every index names a non-empty string of capital letters, and the
      string reads back as the index. */
  lemma {:induction false} IndexToColumnRoundTrip(i: int)
    requires i >= 0
    ensures IndexToColumn(i) != [] && IsLetters(IndexToColumn(i))
    ensures ColumnToIndex(IndexToColumn(i)) == i
  {
    var rest := IndexToColumn(i / 26 - 1);
    var s := IndexToColumn(i);
    assert s == rest + [LetterOf(i % 26)];
    assert s[..|s| - 1] == rest;
    if i / 26 - 1 >= 0 {
      IndexToColumnRoundTrip(i / 26 - 1);
    } else {
      assert rest == [];
    }
    assert LetterValue(rest) == i / 26;
  }

  /** Conversely every non-empty string of capital letters is the name
      of the index it reads as: the numbering is a bijection. */
  lemma {:induction false} ColumnToIndexRoundTrip(s: string)
    requires s != [] && IsLetters(s)
    ensures ColumnToIndex(s) >= 0
    ensures IndexToColumn(ColumnToIndex(s)) == s
  {
    var t := s[..|s| - 1];
    var d := s[|s| - 1] as int - 'A' as int + 1;
    if t != [] {
      ColumnToIndexRoundTrip(t);
    }
    assert LetterValue(t) >= 0;
    var i := LetterValue(t) * 26 + d - 1;
    assert i / 26 == LetterValue(t) && i % 26 == d - 1;
    assert IndexToColumn(i / 26 - 1) == t;
    assert s == t + [s[|s| - 1]];
  }
}
