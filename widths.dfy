/** Column widths of a table: the nested helper `find_column_lengths` of `make_table`.
    A cell is its textual form, a string; its width is its length. */
module Widths {

  /** The larger of two naturals. */
  function Max(a: nat, b: nat): (m: nat)
    ensures m >= a && m >= b && (m == a || m == b)
  {
    if a < b then b else a
  }

  /** The first nRows rows each have a cell in every one of the first nCols columns. */
  predicate Covers(rows: seq<seq<string>>, nCols: nat, nRows: nat) {
    nRows <= |rows| && forall i :: 0 <= i < nRows ==> nCols <= |rows[i]|
  }

  /** The largest length among the first n cells of column j, starting from 0. */
  function ColumnMax(rows: seq<seq<string>>, j: nat, n: nat): nat
    requires n <= |rows| && forall i :: 0 <= i < n ==> j < |rows[i]|
  {
    if n == 0 then 0 else Max(ColumnMax(rows, j, n - 1), |rows[n - 1][j]|)
  }

  /** The width of every column: the column maximum over the rows; labels take no part. */
  function ColumnLengths(rows: seq<seq<string>>, nCols: nat, nRows: nat): (ws: seq<nat>)
    requires Covers(rows, nCols, nRows)
    ensures |ws| == nCols
  {
    seq(nCols, j requires 0 <= j < nCols => ColumnMax(rows, j, nRows))
  }

  /** No cell of the column is longer than its maximum. */
  lemma {:induction false} ColumnMaxIsUpperBound(rows: seq<seq<string>>, j: nat, n: nat)
    requires n <= |rows| && forall i :: 0 <= i < n ==> j < |rows[i]|
    ensures forall i :: 0 <= i < n ==> |rows[i][j]| <= ColumnMax(rows, j, n)
  {
    if n > 0 {
      ColumnMaxIsUpperBound(rows, j, n - 1);
    }
  }

  /** Any bound on every cell of the column bounds the maximum too. */
  lemma {:induction false} ColumnMaxIsLeast(rows: seq<seq<string>>, j: nat, n: nat, m: nat)
    requires n <= |rows| && forall i :: 0 <= i < n ==> j < |rows[i]|
    requires forall i :: 0 <= i < n ==> |rows[i][j]| <= m
    ensures ColumnMax(rows, j, n) <= m
  {
    if n > 0 {
      ColumnMaxIsLeast(rows, j, n - 1, m);
    }
  }

  /** The maximum is the starting 0 or the length of some cell of the column. */
  lemma {:induction false} ColumnMaxIsAttained(rows: seq<seq<string>>, j: nat, n: nat)
    requires n <= |rows| && forall i :: 0 <= i < n ==> j < |rows[i]|
    ensures ColumnMax(rows, j, n) == 0 || exists i :: 0 <= i < n && ColumnMax(rows, j, n) == |rows[i][j]|
  {
    if n > 0 {
      ColumnMaxIsAttained(rows, j, n - 1);
      if ColumnMax(rows, j, n) != |rows[n - 1][j]| {
        assert ColumnMax(rows, j, n) == ColumnMax(rows, j, n - 1);
      }
    }
  }

  /** Every width is exactly its column's maximum: it bounds every cell of the column
      and is 0 or the length of one of them. */
  lemma ColumnLengthsAreColumnMaxima(rows: seq<seq<string>>, nCols: nat, nRows: nat)
    requires Covers(rows, nCols, nRows)
    ensures |ColumnLengths(rows, nCols, nRows)| == nCols
    ensures forall j, i :: 0 <= j < nCols && 0 <= i < nRows ==>
              |rows[i][j]| <= ColumnLengths(rows, nCols, nRows)[j]
    ensures forall j :: 0 <= j < nCols ==>
              var w := ColumnLengths(rows, nCols, nRows)[j];
              w == 0 || exists i :: 0 <= i < nRows && w == |rows[i][j]|
  {
    forall j | 0 <= j < nCols
      ensures forall i :: 0 <= i < nRows ==> |rows[i][j]| <= ColumnLengths(rows, nCols, nRows)[j]
      ensures var w := ColumnLengths(rows, nCols, nRows)[j];
              w == 0 || exists i :: 0 <= i < nRows && w == |rows[i][j]|
    {
      ColumnMaxIsUpperBound(rows, j, nRows);
      ColumnMaxIsAttained(rows, j, nRows);
    }
  }

  /** Shortening cells of a column never changes its width as long as one cell still
      reaches the old maximum: only the longest string decides the width. */
  lemma ShrinkingCellsKeepsColumnMax(rows: seq<seq<string>>, shrunk: seq<seq<string>>, j: nat, n: nat, longest: nat)
    requires n <= |rows| && forall i :: 0 <= i < n ==> j < |rows[i]|
    requires n <= |shrunk| && forall i :: 0 <= i < n ==> j < |shrunk[i]|
    requires forall i :: 0 <= i < n ==> |shrunk[i][j]| <= |rows[i][j]|
    requires longest < n && |shrunk[longest][j]| == ColumnMax(rows, j, n)
    ensures ColumnMax(shrunk, j, n) == ColumnMax(rows, j, n)
  {
    ColumnMaxIsUpperBound(rows, j, n);
    ColumnMaxIsLeast(shrunk, j, n, ColumnMax(rows, j, n));
    ColumnMaxIsUpperBound(shrunk, j, n);
  }

  /** `find_column_lengths`: a list of zeros, raised cell by cell, column by column. */
  method FindColumnLengths(rows: seq<seq<string>>, nCols: nat, nRows: nat) returns (colLens: seq<nat>)
    requires Covers(rows, nCols, nRows)
    ensures colLens == ColumnLengths(rows, nCols, nRows)
  {
    var lens := new nat[nCols](_ => 0);
    for j := 0 to nCols
      invariant forall k :: 0 <= k < j ==> lens[k] == ColumnMax(rows, k, nRows)
      invariant forall k :: j <= k < nCols ==> lens[k] == 0
    {
      for i := 0 to nRows
        invariant lens[j] == ColumnMax(rows, j, i)
        invariant forall k :: 0 <= k < j ==> lens[k] == ColumnMax(rows, k, nRows)
        invariant forall k :: j < k < nCols ==> lens[k] == 0
      {
        if |rows[i][j]| > lens[j] {
          lens[j] := |rows[i][j]|;
        }
      }
    }
    colLens := lens[..];
  }
}
