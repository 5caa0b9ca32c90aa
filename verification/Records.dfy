/** Values shared by every part of the model: SQL cells, records and the usual wrappers. */
module Records {

  datatype Option<+T> = None | Some(value: T)

  datatype Result<+T, +E> = Ok(value: T) | Err(error: E)

  /** One SQL cell, or one JSON value inside an event's bindings. */
  datatype Value = Null | Int(n: int) | Text(s: string)

  /** A row or a bindings dictionary: column name to cell. */
  type Record = map<string, Value>

  /** The cell of a column; a column that is absent reads as NULL. */
  function Cell(r: Record, column: string): Value {
    if column in r then r[column] else Null
  }

  /** `WHERE column = value`: in SQL a NULL on either side never compares equal. */
  predicate CellIs(r: Record, column: string, v: Value) {
    v != Null && Cell(r, column) == v
  }

  /** `block_index >= n`, false for a NULL block_index. */
  predicate AtOrAbove(r: Record, n: int) {
    var cell := Cell(r, "block_index");
    cell.Int? && cell.n >= n
  }

  /** What `DELETE FROM table WHERE block_index >= n` leaves behind. */
  function BelowBlock(rows: seq<Record>, n: int): seq<Record> {
    if rows == [] then []
    else
      var rest := BelowBlock(rows[..|rows| - 1], n);
      if AtOrAbove(rows[|rows| - 1], n) then rest else rest + [rows[|rows| - 1]]
  }

  /** `SELECT * ... WHERE column = value ORDER BY rowid DESC LIMIT 1`. */
  function LatestRow(rows: seq<Record>, column: string, v: Value): Option<Record> {
    if rows == [] then None
    else if CellIs(rows[|rows| - 1], column, v) then Some(rows[|rows| - 1])
    else LatestRow(rows[..|rows| - 1], column, v)
  }

  function CommonPrefixFrom<T(==)>(a: seq<T>, b: seq<T>, from: nat): (k: nat)
    requires from <= |a| && from <= |b|
    ensures from <= k <= |a| && k <= |b|
    ensures forall i :: from <= i < k ==> a[i] == b[i]
    ensures k == |a| || k == |b| || a[k] != b[k]
    decreases |a| - from
  {
    if from < |a| && from < |b| && a[from] == b[from] then CommonPrefixFrom(a, b, from + 1) else from
  }

  function Least(a: int, b: int): int { if a <= b then a else b }

  /** The length of the longest common prefix of two sequences. */
  function CommonPrefix<T(==)>(a: seq<T>, b: seq<T>): (k: nat)
    ensures k <= |a| && k <= |b|
    ensures forall i :: 0 <= i < k ==> a[i] == b[i]
    ensures k == |a| || k == |b| || a[k] != b[k]
  {
    CommonPrefixFrom(a, b, 0)
  }
}
