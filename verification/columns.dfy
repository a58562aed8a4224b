/** Looking values up in a header row and its data row, as both handlers do. */
module Columns {

  /** `strInSlice`: whether `s` is one of the entries of `sl`. */
  function StrInSlice(s: string, sl: seq<string>): (r: bool)
    ensures r <==> s in sl
  {
    if |sl| == 0 then false else sl[0] == s || StrInSlice(s, sl[1..])
  }

  /** `IndexOf`: the position of the first entry equal to `value`, or -1. */
  function IndexOf(value: string, sl: seq<string>): (r: int)
    ensures -1 <= r < |sl|
    ensures r == -1 <==> value !in sl
    ensures r >= 0 ==> sl[r] == value && forall j :: 0 <= j < r ==> sl[j] != value
  {
    if |sl| == 0 then -1
    else if sl[0] == value then 0
    else
      var i := IndexOf(value, sl[1..]);
      if i == -1 then -1 else i + 1
  }

  /** Whether looking `column` up in `row` stays inside the row. Go panics on a
      header column that the row is too short to have. */
  predicate CanLookUp(column: string, header: seq<string>, row: seq<string>) {
    IndexOf(column, header) < |row|
  }

  /** `ColumnValue`: the cell of `row` under the first header entry named
      `column`, or "" when the header has no such column. */
  function ColumnValue(column: string, header: seq<string>, row: seq<string>): (r: string)
    requires CanLookUp(column, header, row)
    ensures column !in header ==> r == ""
    ensures column in header ==> exists j :: 0 <= j < |header| && j < |row| && header[j] == column && r == row[j]
  {
    var i := IndexOf(column, header);
    if i == -1 then "" else row[i]
  }

  /** The first occurrence wins: a duplicated header column always reads the
      leftmost cell. */
  lemma FirstColumnWins(column: string, header: seq<string>, row: seq<string>, j: nat)
    requires CanLookUp(column, header, row)
    requires j < |header| && j < |row| && header[j] == column
    requires forall k :: 0 <= k < j ==> header[k] != column
    ensures ColumnValue(column, header, row) == row[j]
  {
  }
}
