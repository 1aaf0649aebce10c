/** Dropping rows that are completely empty: `dropna(how='all')` over every
    column of the standardized frame (streamlint.py, process_file, line 104). */
module Cleaning {
  import opened Tables

  /** A row every one of whose cells is NaN. An empty string is a value. */
  predicate AllMissing(row: seq<Cell>)
  {
    forall k :: 0 <= k < |row| ==> row[k] == Missing
  }

  /** The rows that survive, in their original order: the row-wise reading of
      what `dropna(how='all')` keeps. */
  function FilterRows(rows: seq<seq<Cell>>): seq<seq<Cell>>
  {
    if |rows| == 0 then []
    else FilterRows(rows[..|rows| - 1])
         + (if AllMissing(rows[|rows| - 1]) then [] else [rows[|rows| - 1]])
  }

  /** The positions of the surviving rows: the boolean mask pandas builds,
      written as the ascending list of row numbers it selects. */
  function KeptIndices(rows: seq<seq<Cell>>): (r: seq<nat>)
    ensures |r| <= |rows|
    ensures forall k :: 0 <= k < |r| ==> r[k] < |rows| && !AllMissing(rows[r[k]])
    ensures forall k, l :: 0 <= k < l < |r| ==> r[k] < r[l]
    ensures forall i :: 0 <= i < |rows| && !AllMissing(rows[i]) ==> i in r
  {
    if |rows| == 0 then []
    else
      var prefix := KeptIndices(rows[..|rows| - 1]);
      assert forall k :: 0 <= k < |prefix| ==> rows[..|rows| - 1][prefix[k]] == rows[prefix[k]];
      prefix + (if AllMissing(rows[|rows| - 1]) then [] else [|rows| - 1])
  }

  function Select(rows: seq<seq<Cell>>, idx: seq<nat>): (r: seq<seq<Cell>>)
    requires forall k :: 0 <= k < |idx| ==> idx[k] < |rows|
    ensures |r| == |idx|
    ensures forall k :: 0 <= k < |idx| ==> r[k] == rows[idx[k]]
  {
    seq(|idx|, k requires 0 <= k < |idx| => rows[idx[k]])
  }

  /** Positions below `n` select the same rows from `rows[..n]` as from `rows`. */
  lemma SelectPrefix(rows: seq<seq<Cell>>, idx: seq<nat>, n: nat)
    requires n <= |rows| && forall k :: 0 <= k < |idx| ==> idx[k] < n
    ensures Select(rows, idx) == Select(rows[..n], idx)
  {
  }

  /** Selecting one more position appends that row. */
  lemma SelectSnoc(rows: seq<seq<Cell>>, idx: seq<nat>, n: nat)
    requires n < |rows| && forall k :: 0 <= k < |idx| ==> idx[k] < |rows|
    ensures Select(rows, idx + [n]) == Select(rows, idx) + [rows[n]]
  {
    var whole := Select(rows, idx + [n]);
    forall k | 0 <= k < |idx|
      ensures whole[k] == rows[idx[k]]
    {
      assert (idx + [n])[k] == idx[k];
    }
  }

  /** Selecting the kept positions is the same as filtering the rows. */
  lemma {:induction false} SelectKept(rows: seq<seq<Cell>>)
    ensures Select(rows, KeptIndices(rows)) == FilterRows(rows)
  {
    if |rows| > 0 {
      var n := |rows| - 1;
      SelectKept(rows[..n]);
      var keep := KeptIndices(rows[..n]);
      SelectPrefix(rows, keep, n);
      if !AllMissing(rows[n]) {
        SelectSnoc(rows, keep, n);
      }
    }
  }

  /** Line 104: keep exactly the rows in which some column is not NaN. */
  function DropEmptyRows(t: Table): (r: Table)
    requires WellFormed(t)
    ensures WellFormed(r)
    ensures Header(r) == Header(t)
    ensures r.height <= t.height
  {
    var keep := KeptIndices(Rows(t));
    var r := Table(
      seq(|t.columns|, j requires 0 <= j < |t.columns| =>
        Column(t.columns[j].name,
               seq(|keep|, k requires 0 <= k < |keep| => t.columns[j].cells[keep[k]]))),
      |keep|);
    assert Header(r) == Header(t);
    r
  }

  /** Read row by row, the cleaned table is the source's rows with the
      all-missing ones removed and the others kept in order. */
  lemma DropEmptyRowsSpec(t: Table)
    requires WellFormed(t)
    ensures Rows(DropEmptyRows(t)) == FilterRows(Rows(t))
  {
    var r := DropEmptyRows(t);
    var keep := KeptIndices(Rows(t));
    forall k | 0 <= k < |keep|
      ensures Rows(r)[k] == Rows(t)[keep[k]]
    {
      assert Row(r, k) == Row(t, keep[k]);
    }
    SelectKept(Rows(t));
  }

  /** Column by column, the cleaned table keeps the cells of the surviving
      rows. */
  lemma DropEmptyRowsCells(t: Table, n: string)
    requires WellFormed(t)
    ensures |CellsOf(DropEmptyRows(t), n)| == |KeptIndices(Rows(t))|
    ensures forall k :: 0 <= k < |KeptIndices(Rows(t))| ==>
              CellsOf(DropEmptyRows(t), n)[k] == CellsOf(t, n)[KeptIndices(Rows(t))[k]]
  {
  }

  /** A row survives exactly when it has a cell that is not NaN: every
      surviving row is one of the source's and is not all-missing, and every
      source row that is not all-missing survives. */
  lemma {:induction false} FilterRowsSpec(rows: seq<seq<Cell>>)
    ensures forall x :: x in FilterRows(rows) ==> x in rows && !AllMissing(x)
    ensures forall i :: 0 <= i < |rows| && !AllMissing(rows[i]) ==> rows[i] in FilterRows(rows)
  {
    if |rows| > 0 {
      var n := |rows| - 1;
      FilterRowsSpec(rows[..n]);
      assert forall i :: 0 <= i < n ==> rows[..n][i] == rows[i];
    }
  }

  /** When nothing is all-missing, the mask selects every position. */
  lemma {:induction false} KeptAll(rows: seq<seq<Cell>>)
    requires forall i :: 0 <= i < |rows| ==> !AllMissing(rows[i])
    ensures KeptIndices(rows) == seq(|rows|, i => i)
  {
    if |rows| > 0 {
      var n := |rows| - 1;
      assert forall i :: 0 <= i < n ==> rows[..n][i] == rows[i];
      KeptAll(rows[..n]);
      assert seq(|rows|, i => i) == seq(n, i => i) + [n];
    }
  }

  /** A column with a value in every row keeps every row: nothing is dropped
      and the table is returned unchanged. */
  lemma NothingDropped(t: Table, j: nat)
    requires WellFormed(t) && j < |t.columns|
    requires forall i :: 0 <= i < t.height ==> t.columns[j].cells[i] != Missing
    ensures DropEmptyRows(t) == t
  {
    var rows := Rows(t);
    forall i | 0 <= i < |rows|
      ensures !AllMissing(rows[i])
    {
      assert rows[i][j] != Missing;
    }
    KeptAll(rows);
    var r := DropEmptyRows(t);
    forall c | 0 <= c < |t.columns|
      ensures r.columns[c] == t.columns[c]
    {
      assert r.columns[c].cells == t.columns[c].cells;
    }
    assert r.columns == t.columns;
  }
}
