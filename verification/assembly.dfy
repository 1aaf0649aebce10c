/** Master-dataset assembly: the processing loop of `main` (streamlint.py,
    lines 125-141) without its Streamlit messages, preview and export. */
module Assembly {
  import opened Wrappers
  import opened Tables
  import opened Schema
  import opened Standardize

  /** Line 131: a result is kept when the file loaded and kept some rows. */
  predicate Usable(r: Option<Table>)
  {
    r.Some? && r.value.height > 0
  }

  /** The uploads, each already read (`Some`) or failed to read (`None`). */
  predicate Loaded(loads: seq<Option<Table>>)
  {
    forall i :: 0 <= i < |loads| && loads[i].Some? ==> WellFormed(loads[i].value)
  }

  /** process_file applied to every upload, in upload order. */
  function ProcessAll(loads: seq<Option<Table>>, m: Mapper): (r: seq<Option<Table>>)
    requires Loaded(loads)
    ensures |r| == |loads|
    ensures forall i :: 0 <= i < |loads| ==> r[i] == ProcessFile(loads[i], m)
  {
    seq(|loads|, i requires 0 <= i < |loads| => ProcessFile(loads[i], m))
  }

  /** The usable results, in order: the list `all_dfs` the loop builds. */
  function UsableTables(results: seq<Option<Table>>): (r: seq<Table>)
    ensures |r| <= |results|
    ensures |r| == 0 <==> forall i :: 0 <= i < |results| ==> !Usable(results[i])
    ensures forall k :: 0 <= k < |r| ==> r[k].height > 0 && Some(r[k]) in results
  {
    if |results| == 0 then []
    else
      var n := |results| - 1;
      var init := UsableTables(results[..n]);
      assert forall i :: 0 <= i < n ==> results[..n][i] == results[i];
      init + (if Usable(results[n]) then [results[n].value] else [])
  }

  lemma UsableTablesSnoc(results: seq<Option<Table>>)
    requires |results| > 0
    ensures var n := |results| - 1;
            UsableTables(results)
            == UsableTables(results[..n]) + (if Usable(results[n]) then [results[n].value] else [])
  {
  }

  /** `all_dfs` keeps upload order: the tables kept from a first batch of
      uploads come before, and in the same order as, those kept from the
      uploads after it. */
  lemma {:induction false} UsableTablesAppend(a: seq<Option<Table>>, b: seq<Option<Table>>)
    ensures UsableTables(a + b) == UsableTables(a) + UsableTables(b)
    decreases |b|
  {
    if |b| == 0 {
      assert a + b == a;
    } else {
      var n := |b| - 1;
      var last := if Usable(b[n]) then [b[n].value] else [];
      calc {
        UsableTables(a + b);
      == { assert (a + b)[..|a + b| - 1] == a + b[..n];
           assert (a + b)[|a + b| - 1] == b[n];
           UsableTablesSnoc(a + b); }
        UsableTables(a + b[..n]) + last;
      == { UsableTablesAppend(a, b[..n]); }
        (UsableTables(a) + UsableTables(b[..n])) + last;
      ==
        UsableTables(a) + (UsableTables(b[..n]) + last);
      == { UsableTablesSnoc(b); }
        UsableTables(a) + UsableTables(b);
      }
    }
  }

  /** No usable result is lost: every upload that loaded and kept rows has
      its table in `all_dfs`. */
  lemma {:induction false} UsableTablesComplete(results: seq<Option<Table>>)
    ensures forall i :: 0 <= i < |results| && Usable(results[i]) ==>
              results[i].value in UsableTables(results)
  {
    if |results| > 0 {
      var n := |results| - 1;
      var init := results[..n];
      UsableTablesComplete(init);
      UsableTablesSnoc(results);
      forall i | 0 <= i < |results| && Usable(results[i])
        ensures results[i].value in UsableTables(results)
      {
        if i < n {
          assert init[i] == results[i];
        }
      }
    }
  }

  /** A single upload contributes its table exactly when it is usable. */
  lemma UsableTablesSingle(x: Option<Table>)
    ensures Usable(x) ==> UsableTables([x]) == [x.value]
    ensures !Usable(x) ==> UsableTables([x]) == []
  {
    UsableTablesSnoc([x]);
    assert [x][..0] == [];
  }

  /** Tables that all have this header and one cell per row in each column. */
  predicate Uniform(ts: seq<Table>, header: seq<string>)
  {
    forall k :: 0 <= k < |ts| ==> WellFormed(ts[k]) && Header(ts[k]) == header
  }

  /** A table with the given header and no rows. */
  function Blank(header: seq<string>): (r: Table)
    ensures WellFormed(r) && Header(r) == header && r.height == 0
  {
    var r := Table(seq(|header|, j requires 0 <= j < |header| => Column(header[j], [])), 0);
    assert Header(r) == header;
    r
  }

  /** `pd.concat([a, b], ignore_index=True)` for two frames with one header. */
  function Concat(a: Table, b: Table): (r: Table)
    requires WellFormed(a) && WellFormed(b) && Header(a) == Header(b)
    ensures WellFormed(r) && Header(r) == Header(a)
    ensures r.height == a.height + b.height
  {
    assert |a.columns| == |Header(b)| == |b.columns|;
    var r := Table(
      seq(|a.columns|, j requires 0 <= j < |a.columns| =>
        Column(a.columns[j].name, a.columns[j].cells + b.columns[j].cells)),
      a.height + b.height);
    assert Header(r) == Header(a);
    r
  }

  /** The rows of a concatenation are the first table's rows, then the
      second's, each in their own order. */
  lemma ConcatRows(a: Table, b: Table)
    requires WellFormed(a) && WellFormed(b) && Header(a) == Header(b)
    ensures Rows(Concat(a, b)) == Rows(a) + Rows(b)
  {
    var c := Concat(a, b);
    forall i | 0 <= i < c.height
      ensures Rows(c)[i] == (Rows(a) + Rows(b))[i]
    {
      if i < a.height {
        assert Row(c, i) == Row(a, i);
      } else {
        assert Row(c, i) == Row(b, i - a.height);
      }
    }
  }

  function TotalHeight(ts: seq<Table>): nat
  {
    if |ts| == 0 then 0 else TotalHeight(ts[..|ts| - 1]) + ts[|ts| - 1].height
  }

  /** The rows of every table, table after table. */
  function AllRows(ts: seq<Table>): seq<seq<Cell>>
    requires forall k :: 0 <= k < |ts| ==> WellFormed(ts[k])
  {
    if |ts| == 0 then [] else AllRows(ts[..|ts| - 1]) + Rows(ts[|ts| - 1])
  }

  /** `pd.concat(all_dfs, ignore_index=True)`. */
  function ConcatAll(ts: seq<Table>, header: seq<string>): (r: Table)
    requires Uniform(ts, header)
    ensures WellFormed(r) && Header(r) == header
    ensures r.height == TotalHeight(ts)
  {
    if |ts| == 0 then Blank(header)
    else Concat(ConcatAll(ts[..|ts| - 1], header), ts[|ts| - 1])
  }

  /** The master dataset holds every row of every kept table, in upload order
      and within each table in its own order. */
  lemma {:induction false} ConcatAllRows(ts: seq<Table>, header: seq<string>)
    requires Uniform(ts, header)
    ensures Rows(ConcatAll(ts, header)) == AllRows(ts)
  {
    if |ts| > 0 {
      var n := |ts| - 1;
      ConcatAllRows(ts[..n], header);
      ConcatRows(ConcatAll(ts[..n], header), ts[n]);
    } else {
      assert Rows(Blank(header)) == [];
    }
  }

  /** `range(1, N + 1)` as a column. */
  function Serial(n: nat): (r: seq<Cell>)
    ensures |r| == n
  {
    seq(n, i requires 0 <= i < n => Number(i + 1))
  }

  /** Line 141: overwrite "Sl No" with 1..N. */
  function Renumber(t: Table): (r: Table)
    requires WellFormed(t)
    ensures WellFormed(r) && Header(r) == Header(t) && r.height == t.height
  {
    var r := Table(
      seq(|t.columns|, j requires 0 <= j < |t.columns| =>
        if t.columns[j].name == SlNo then Column(SlNo, Serial(t.height)) else t.columns[j]),
      t.height);
    assert Header(r) == Header(t);
    r
  }

  /** Row i of the renumbered table carries i + 1 in "Sl No", whatever was
      mapped there, and is otherwise unchanged. */
  lemma RenumberRows(t: Table)
    requires WellFormed(t)
    ensures forall i, j :: 0 <= i < t.height && 0 <= j < |t.columns| ==>
              Rows(Renumber(t))[i][j] == if Header(t)[j] == SlNo then Number(i + 1) else Rows(t)[i][j]
  {
  }

  /** Every kept table came out of process_file, so all share its header. */
  lemma KeptUniform(loads: seq<Option<Table>>, m: Mapper)
    requires Loaded(loads)
    ensures Uniform(UsableTables(ProcessAll(loads, m)), OutputColumns(m))
  {
    var results := ProcessAll(loads, m);
    var kept := UsableTables(results);
    forall k | 0 <= k < |kept|
      ensures WellFormed(kept[k]) && Header(kept[k]) == OutputColumns(m)
    {
      var i :| 0 <= i < |results| && results[i] == Some(kept[k]);
      assert ProcessFile(loads[i], m) == Some(kept[k]);
    }
  }

  /** The usable standardized tables of an upload batch, in upload order. */
  function KeptTables(loads: seq<Option<Table>>, m: Mapper): (r: seq<Table>)
    requires Loaded(loads)
    ensures Uniform(r, OutputColumns(m))
  {
    KeptUniform(loads, m);
    UsableTables(ProcessAll(loads, m))
  }

  /** Lines 125-141 as one function of the uploads: `None` is the "No data was
      processed" state; otherwise the renumbered concatenation. */
  function Assemble(loads: seq<Option<Table>>, m: Mapper): (r: Option<Table>)
    requires Loaded(loads)
    ensures r.None? <==> forall i :: 0 <= i < |loads| ==> !Usable(ProcessFile(loads[i], m))
    ensures r.Some? ==> WellFormed(r.value) && Header(r.value) == OutputColumns(m)
    ensures r.Some? ==> r.value.height == TotalHeight(KeptTables(loads, m))
  {
    var kept := KeptTables(loads, m);
    if |kept| == 0 then None
    else Some(Renumber(ConcatAll(kept, OutputColumns(m))))
  }

  /** Rows with the first cell of row i replaced by the number i + 1. */
  function SerialRows(rows: seq<seq<Cell>>): (r: seq<seq<Cell>>)
    ensures |r| == |rows|
  {
    seq(|rows|, i requires 0 <= i < |rows| =>
      if |rows[i]| > 0 then rows[i][0 := Number(i + 1)] else rows[i])
  }

  /** Renumbering the concatenation: row i is the i-th row of the tables
      taken in order, except that column 0, "Sl No", holds i + 1. */
  lemma RenumberedConcatRows(ts: seq<Table>, header: seq<string>)
    requires Uniform(ts, header)
    requires forall j :: 0 <= j < |header| ==> (header[j] == SlNo <==> j == 0)
    ensures Rows(Renumber(ConcatAll(ts, header))) == SerialRows(AllRows(ts))
  {
    var all := ConcatAll(ts, header);
    var r := Renumber(all);
    ConcatAllRows(ts, header);
    RenumberRows(all);
    forall i | 0 <= i < r.height
      ensures Rows(r)[i] == SerialRows(AllRows(ts))[i]
    {
      if |header| > 0 {
        assert Rows(r)[i] == Rows(all)[i][0 := Number(i + 1)];
      } else {
        assert Rows(r)[i] == Rows(all)[i];
      }
    }
  }

  /** Row by row, the master dataset is every kept row in upload order (and
      within each file in its own order), with "Sl No", column 0, renumbered
      1..N. */
  lemma AssembleRows(loads: seq<Option<Table>>, m: Mapper)
    requires Loaded(loads)
    ensures Assemble(loads, m).Some? ==>
              Rows(Assemble(loads, m).value) == SerialRows(AllRows(KeptTables(loads, m)))
  {
    OutputColumnsSpec(m);
    RenumberedConcatRows(KeptTables(loads, m), OutputColumns(m));
  }

  /** One more upload extends `all_dfs` by its result when that is usable. */
  lemma UsableSnoc(loads: seq<Option<Table>>, m: Mapper, i: nat)
    requires Loaded(loads) && i < |loads|
    ensures Loaded(loads[..i]) && Loaded(loads[..i + 1])
    ensures UsableTables(ProcessAll(loads[..i + 1], m))
         == UsableTables(ProcessAll(loads[..i], m))
            + (if Usable(ProcessFile(loads[i], m)) then [ProcessFile(loads[i], m).value] else [])
  {
    var longer := ProcessAll(loads[..i + 1], m);
    assert longer[..i] == ProcessAll(loads[..i], m);
    assert longer[i] == ProcessFile(loads[i], m);
  }

  /** The loop of `main`: process each upload in turn, keep the usable
      results, then concatenate and renumber. A file that fails or yields no
      rows is skipped and the loop goes on. */
  method BuildMaster(loads: seq<Option<Table>>, m: Mapper) returns (master: Option<Table>)
    requires Loaded(loads)
    ensures master == Assemble(loads, m)
    ensures master.None? <==> forall i :: 0 <= i < |loads| ==> !Usable(ProcessFile(loads[i], m))
  {
    var allDfs: seq<Table> := [];
    for i := 0 to |loads|
      invariant allDfs == UsableTables(ProcessAll(loads[..i], m))
    {
      var processed := ProcessFile(loads[i], m);
      UsableSnoc(loads, m, i);
      if processed.Some? && processed.value.height > 0 {
        allDfs := allDfs + [processed.value];
      }
    }
    assert loads[..|loads|] == loads;
    if |allDfs| > 0 {
      master := Some(Renumber(ConcatAll(allDfs, OutputColumns(m))));
    } else {
      master := None;
    }
  }
}
