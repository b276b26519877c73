/**
 * The tabular data the pipeline moves around: a table is an ordered list of
 * column names and an ordered list of rows, and a row maps a column name to a
 * value that may be null. A column missing from a row's map is "absent",
 * which the source distinguishes from a present column holding null
 * (`row.get(col, default)` versus `pd.notna(row[col])`).
 */
module Tables {
  import opened Wrappers

  type Row = map<string, Option<string>>

  datatype Table = Table(columns: seq<string>, rows: seq<Row>)

  /** What a row holds under one column name. */
  datatype Cell = Absent | Null | Value(v: string)

  function Lookup(row: Row, col: string): (c: Cell)
    ensures c.Absent? <==> col !in row
    ensures c.Value? ==> col in row && row[col] == Some(c.v)
  {
    if col !in row then Absent
    else match row[col]
      case None => Null
      case Some(v) => Value(v)
  }

  /** `'col' in row and pd.notna(row['col'])`: the value when it is there and not null. */
  function Present(row: Row, col: string): (o: Option<string>)
    ensures o.Some? <==> Lookup(row, col).Value?
    ensures o.Some? ==> o.value == Lookup(row, col).v
  {
    if col in row then row[col] else None
  }

  predicate HasPrefix(s: string, prefix: string) {
    |prefix| <= |s| && s[..|prefix|] == prefix
  }

  predicate HasSuffix(s: string, suffix: string) {
    |suffix| <= |s| && s[|s| - |suffix|..] == suffix
  }

  /** Whether `part` occurs somewhere in `s` (Python's `part in s`). */
  predicate Contains(s: string, part: string)
    decreases |s|
  {
    HasPrefix(s, part) || (s != [] && Contains(s[1..], part))
  }

  /** ASCII lower-casing of one character. */
  function LowerChar(c: char): char {
    if 'A' <= c <= 'Z' then (c as int + 32) as char else c
  }

  function Lower(s: string): (r: string)
    ensures |r| == |s|
    ensures forall i :: 0 <= i < |s| ==> r[i] == LowerChar(s[i])
  {
    seq(|s|, i requires 0 <= i < |s| => LowerChar(s[i]))
  }
}
