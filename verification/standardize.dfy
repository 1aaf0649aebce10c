/** process_file (streamlint.py, lines 50-106): load, map, normalise the
    budget field, drop empty rows. */
module Standardize {
  import opened Wrappers
  import opened Tables
  import opened Schema
  import opened Mapping
  import opened Budget
  import opened Cleaning

  /** The frame just before line 104: mapped, with the budget field rewritten. */
  function PreDrop(m: Mapper, src: Table): (r: Table)
    requires WellFormed(src)
    ensures WellFormed(r) && r.height == src.height
  {
    MapColumnsHeader(m, src);
    Normalise(MapColumns(m, src), m, src)
  }

  /** The budget field is a canonical column, so the rewrite does not add a
      column: the header is the one the mapping fixed. */
  lemma PreDropHeader(m: Mapper, src: Table)
    requires WellFormed(src)
    ensures Header(PreDrop(m, src)) == OutputColumns(m)
  {
    MapColumnsHeader(m, src);
    OutputColumnsSpec(m);
    MasterColumnsShape();
    assert BudgetField in OutputColumns(m);
  }

  /** Lines 61-106 on a successfully loaded sheet. */
  function Standardize(m: Mapper, src: Table): (r: Table)
    requires WellFormed(src)
    ensures WellFormed(r) && r.height <= src.height
    ensures Header(r) == OutputColumns(m)
  {
    PreDropHeader(m, src);
    DropEmptyRows(PreDrop(m, src))
  }

  /** process_file: `None` when the sheet could not be read (the load itself
      is the caller's, passed in as its outcome), the standardized frame
      otherwise. */
  function ProcessFile(load: Option<Table>, m: Mapper): (r: Option<Table>)
    requires load.Some? ==> WellFormed(load.value)
    ensures r.Some? <==> load.Some?
    ensures r.Some? ==> WellFormed(r.value) && Header(r.value) == OutputColumns(m)
    ensures r.Some? ==> r.value.height <= load.value.height
  {
    match load
    case None => None
    case Some(src) => Some(Standardize(m, src))
  }

  /** Every column of the frame before row dropping: the budget field holds
      the Yes/No classification of its backing column when one resolves;
      any other column, and the budget field without a backing column, holds
      what its alias rule resolves to, or missing when it has no rule. */
  lemma PreDropCells(m: Mapper, src: Table, n: string)
    requires WellFormed(src) && DistinctKeys(m)
    ensures CellsOf(PreDrop(m, src), n)
         == if n == BudgetField && BudgetSource(m, Header(src)).Some?
            then ClassifyColumn(CellsOf(src, BudgetSource(m, Header(src)).value))
            else match Lookup(m, n)
                 case Some(rule) => MappedCells(rule, src)
                 case None => MissingCells(src.height)
  {
    MapColumnsCells(m, src);
    NormaliseSpec(MapColumns(m, src), m, src, n);
  }

  /** Row by row, the result is the pre-drop frame without its all-missing
      rows, order preserved. */
  lemma StandardizeRows(m: Mapper, src: Table)
    requires WellFormed(src)
    ensures Rows(Standardize(m, src)) == FilterRows(Rows(PreDrop(m, src)))
  {
    DropEmptyRowsSpec(PreDrop(m, src));
  }

  /** When the budget field has a backing column every row gets "No" or "Yes",
      so no row is all-missing: no row is dropped and the output has as many
      rows as the source. */
  lemma BudgetBackedKeepsEveryRow(m: Mapper, src: Table)
    requires WellFormed(src) && DistinctKeys(m)
    requires BudgetSource(m, Header(src)).Some?
    ensures Standardize(m, src) == PreDrop(m, src)
    ensures Standardize(m, src).height == src.height
  {
    var p := PreDrop(m, src);
    PreDropCells(m, src, BudgetField);
    PreDropHeader(m, src);
    OutputColumnsSpec(m);
    MasterColumnsShape();
    assert BudgetField in Header(p);
    var j := IndexOf(Header(p), BudgetField).value;
    assert p.columns[j].cells == CellsOf(p, BudgetField);
    NothingDropped(p, j);
  }

  /** When no backing column resolves (and the rule did not copy a column
      named ""), the budget field stays missing in every surviving row: it is
      never set to "No". */
  lemma UnbackedBudgetStaysMissing(m: Mapper, src: Table)
    requires WellFormed(src) && DistinctKeys(m)
    requires BudgetSource(m, Header(src)).None?
    requires Lookup(m, BudgetField).Some? ==> Resolve(Lookup(m, BudgetField).value, Header(src)) != Some("")
    ensures forall i :: 0 <= i < Standardize(m, src).height ==>
              CellsOf(Standardize(m, src), BudgetField)[i] == Missing
  {
    var p := PreDrop(m, src);
    PreDropCells(m, src, BudgetField);
    BudgetSourceResolves(m, Header(src));
    DropEmptyRowsCells(p, BudgetField);
  }

  /** With the shipped alias table, a sheet that has the "Budget Allocation
      ..." column keeps all its rows and gets "No"/"Yes" from that column. */
  lemma ClimBudgetBacked(src: Table)
    requires WellFormed(src) && BudgetAllocation in Header(src)
    ensures Standardize(MapperClim, src).height == src.height
    ensures CellsOf(Standardize(MapperClim, src), BudgetField)
         == ClassifyColumn(CellsOf(src, BudgetAllocation))
  {
    MapperClimKeysDistinct();
    MapperClimBudgetRule();
    BudgetBackedKeepsEveryRow(MapperClim, src);
    PreDropCells(MapperClim, src, BudgetField);
  }

  /** With the shipped alias table, a sheet without that column leaves the
      budget field missing in every row, not "No". */
  lemma ClimBudgetUnbacked(src: Table)
    requires WellFormed(src) && BudgetAllocation !in Header(src)
    ensures forall i :: 0 <= i < Standardize(MapperClim, src).height ==>
              CellsOf(Standardize(MapperClim, src), BudgetField)[i] == Missing
  {
    MapperClimKeysDistinct();
    MapperClimBudgetRule();
    UnbackedBudgetStaysMissing(MapperClim, src);
  }
}
