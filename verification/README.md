# Policy inventory master-dataset builder — Dafny model

This project models the core of `streamlint.py`. That code turns policy-inventory
spreadsheets into one master dataset with a canonical schema. The model covers four parts:

- **Schema registry.** The 18 canonical columns (`MASTER_COLUMNS`) and the alias
  table (`mapper_clim`). Each rule in the alias table is `None`, a single source
  column name, or a list of candidate names.
- **Column mapping** (`process_file`). Rules are applied in dict order into a
  frame that starts with the canonical columns. Assigning to a name overwrites
  that column in place. A new name is appended, so two non-canonical keys become
  extra columns.
- **Budget Yes/No normaliser.** This resolves the column behind "Demands with
  pledges, commitment, or funding (Yes/No)". When one is found, each row becomes
  "No" or "Yes" using the five fixed phrases.
- **Row dropping and master assembly.** `dropna(how='all')` runs over every output
  column. Then the loop in `main` keeps each file that loaded and has rows,
  concatenates the kept files in upload order and renumbers "Sl No" 1..N.

Modules, leaf first:
- `Wrappers`: `Option`.
- `Tables`: cells, columns and tables, plus `df[name]` reads and writes.
- `Schema`: the registry.
- `Mapping`: alias resolution and the mapping loop.
- `Budget`: the normaliser.
- `Cleaning`: row dropping.
- `Standardize`: `process_file`.
- `Assembly`: the part of `main` that builds the master dataset.

A cell is `Missing` (NaN), `Text(s)` or `Number(n)`. A table is a list of named
columns plus a row count. Reading the file is the caller's job. A load arrives
as `Some(table)`, or as `None` when `pd.read_excel` failed.

Behaviour worth knowing, as the code has it:
- Budget matching compares the whole lowercased text, with no trimming and
  no substring search. So " not specified" and "No exclusive funding
  identified" are "Yes" (`Budget.ClassifyYesExamples`).
- A file with no budget-like column skips the normaliser. Its budget field
  stays missing, not "No" (`Standardize.ClimBudgetUnbacked`).
- A row is dropped only when every output column is NaN, including the two
  extra columns. An empty string counts as a value (`Cleaning.FilterRowsSpec`).

## Model

| member | source | states |
|---|---|---|
| Schema.MasterColumnsShape | streamlint.py:7-14 | there are 18 canonical columns, all distinct; "Sl No" is first and the budget field is ninth |
| Schema.MapperClimKeysDistinct | streamlint.py:16-46 | no key of the shipped alias table is repeated |
| Schema.MapperClimBudgetRule | streamlint.py:30-31 | the shipped table feeds the budget field from the single column "Budget Allocation (if any) …" |
| Schema.MapperClimExtras | streamlint.py:16-46 | exactly two shipped keys are not canonical: the thematic-focus key, then the implementing-agency key; output tables have 20 columns |
| Schema.NewKeysSpec | streamlint.py:61-64 | the columns that assignment appends are exactly the keys not already present, with no duplicates |
| Schema.OutputColumnsSpec | streamlint.py:61-64 | the output header starts with the 18 canonical columns in order; it names exactly the canonical columns and the mapper keys, each once; "Sl No" is column 0 and nowhere else |
| Tables.CellsOf | streamlint.py:68-69 | reading a column of a well-formed table gives one cell per row; a name that is not a column reads as all-missing (the code reads only names it has checked are present) |
| Tables.SetColumn | streamlint.py:76 | `df[name] = cells` keeps one cell per row in every column; the header is unchanged when `name` is already a column, otherwise `name` is appended at the end |
| Tables.SetColumnCells | streamlint.py:75-78 | after `df[name] = cells`, reading `name` gives the new cells and every other name reads as before |
| Mapping.Resolve | streamlint.py:65-78 | a rule resolves only to a name that is a column of the source sheet |
| Mapping.MappedCells | streamlint.py:65-78 | the column a rule produces has exactly one cell per source row |
| Mapping.FirstPresent | streamlint.py:65-73 | returns the position of the first candidate that is a source column; no earlier candidate is one; returns none exactly when no candidate is a source column |
| Mapping.DirectRule | streamlint.py:75-78 | a non-empty name that is a source column is copied as is; an empty name, an absent name or a `None` rule gives all-missing |
| Mapping.FallbackRule | streamlint.py:65-73 | a list rule copies the column of its first present candidate, whatever later candidates are present |
| Mapping.FallbackNonePresent | streamlint.py:72-73 | a list with no present candidate, including the empty list, gives all-missing |
| Mapping.ApplyRules | streamlint.py:64-78 | applying the rules in order never changes the row count |
| Mapping.MapColumns | streamlint.py:61-78 | the mapped frame has one row per source row |
| Mapping.ApplyRulesHeader | streamlint.py:61-64 | applying the rules keeps the frame well formed; the header gains the new keys at the end in dict order |
| Mapping.ApplyRulesCells | streamlint.py:64-78 | after the loop, each key's column holds its rule's cells; any other name keeps its earlier cells |
| Mapping.MapColumnsHeader | streamlint.py:61-64 | the mapped frame's header is the canonical columns followed by the extra keys, for any source |
| Mapping.MapColumnsCells | streamlint.py:61-78 | each mapped column holds what its alias rule resolves to; a canonical column with no rule is all-missing |
| Budget.NatToString | streamlint.py:93 | `str` of a number is non-empty and starts with a digit |
| Budget.Classify | streamlint.py:95-101 | every row becomes the text "No" or the text "Yes", never NaN |
| Budget.BudgetSource | streamlint.py:81-86 | when the normaliser finds a backing column, its name is non-empty and is a column of the source sheet |
| Budget.Normalise | streamlint.py:80-101 | the rewrite keeps the row count and well-formedness; when the budget field is already a column, the header is unchanged |
| Budget.ClassifyIsNo | streamlint.py:86-101 | a row is "No" iff its cell is missing, is the empty string, or its lowercased text equals one of the five phrases; otherwise "Yes"; numeric cells are "Yes" |
| Budget.ClassifyIgnoresCase | streamlint.py:93-98 | texts that are equal after lowercasing get the same classification |
| Budget.ClassifyNoExamples | streamlint.py:87-101 | missing, "", "Not Specified" and "NO DEDICATED BUDGET" are "No" |
| Budget.ClassifyYesExamples | streamlint.py:87-101 | "$2M allocated", "Yes, $500k", " not specified" (no trimming), "No exclusive funding identified" (no substring match) and numbers are "Yes" |
| Budget.BudgetSourceResolves | streamlint.py:81-86 | the normaliser's backing column is the column the mapping loop copied into the budget field, except a column named "", which a list rule copies but the truthiness test skips |
| Budget.NormaliseSpec | streamlint.py:86-101 | with a backing column, the budget field becomes that column's row-by-row classification; without one it keeps the mapper's fill; other columns do not change |
| Cleaning.DropEmptyRows | streamlint.py:104 | dropping keeps the table well formed and its header unchanged, and never adds rows |
| Cleaning.KeptIndices | streamlint.py:104 | the kept row positions are ascending; each one points at a row that is not all-missing; every such row is included |
| Cleaning.SelectKept | streamlint.py:104 | selecting the kept positions gives the same rows as filtering out the all-missing ones |
| Cleaning.DropEmptyRowsSpec | streamlint.py:104 | read row by row, the cleaned table equals the source rows with the all-missing ones removed, order kept |
| Cleaning.DropEmptyRowsCells | streamlint.py:104 | column by column, the cleaned table keeps the cells of the surviving rows |
| Cleaning.FilterRowsSpec | streamlint.py:104 | every surviving row is a source row that is not all-missing; every source row that is not all-missing survives |
| Cleaning.NothingDropped | streamlint.py:104 | if some column has a value in every row, the table comes back unchanged |
| Standardize.PreDrop | streamlint.py:61-101 | the frame before dropping is well formed and has one row per source row |
| Standardize.Standardize | streamlint.py:61-106 | a loaded sheet becomes a well-formed table with the output header and no more rows than the sheet |
| Standardize.ProcessFile | streamlint.py:50-106 | a failed load gives None; otherwise the result is a well-formed table with the output header and at most as many rows as the source |
| Standardize.PreDropHeader | streamlint.py:61-101 | the budget rewrite adds no column: before dropping, the header is the canonical columns followed by the extra keys |
| Standardize.PreDropCells | streamlint.py:61-101 | before dropping, the budget field holds the classification of its backing column when one resolves; every other column holds what its rule resolves to, or missing |
| Standardize.StandardizeRows | streamlint.py:103-106 | the result is the pre-drop frame with its all-missing rows filtered out |
| Standardize.BudgetBackedKeepsEveryRow | streamlint.py:86-104 | when the budget field has a backing column, no row is dropped and the output has as many rows as the source |
| Standardize.UnbackedBudgetStaysMissing | streamlint.py:75-86 | when no backing column resolves, the budget field stays missing in every surviving row; it is never set to "No" |
| Standardize.ClimBudgetBacked | streamlint.py:81-104 | with the shipped table and a "Budget Allocation …" column, all rows are kept and the field is that column's classification |
| Standardize.ClimBudgetUnbacked | streamlint.py:75-86 | with the shipped table and no such column, the budget field is missing in every row |
| Assembly.UsableTables | streamlint.py:131-135 | the kept list is empty iff no result loaded with rows; every kept table has rows and is one of the results (the converse and upload order are stated by the three lemmas that follow) |
| Assembly.UsableTablesComplete | streamlint.py:131-132 | no usable result is lost: every upload that loaded and kept rows has its table in the kept list |
| Assembly.UsableTablesAppend | streamlint.py:127-132 | the kept list of two batches of uploads is the first batch's kept list followed by the second's, so upload order is kept |
| Assembly.UsableTablesSingle | streamlint.py:131-135 | a single upload adds its table exactly when it loaded and has rows, and adds nothing otherwise |
| Assembly.KeptUniform | streamlint.py:127-132 | all kept tables share the output header |
| Assembly.Concat | streamlint.py:138 | concatenating two frames with one header keeps that header, and the row counts add |
| Assembly.ConcatAll | streamlint.py:138 | the concatenation of the kept tables has their shared header, and its height is the sum of theirs |
| Assembly.ConcatRows | streamlint.py:138 | the rows of a concatenation are the first table's rows followed by the second's |
| Assembly.ConcatAllRows | streamlint.py:138 | the concatenation of the kept tables holds their rows in upload order |
| Assembly.Renumber | streamlint.py:141 | renumbering keeps the header, the row count and well-formedness |
| Assembly.RenumberRows | streamlint.py:141 | in row i, "Sl No" becomes i + 1 whatever was mapped there; other cells do not change |
| Assembly.RenumberedConcatRows | streamlint.py:138-141 | row i of the renumbered concatenation is the i-th kept row, with column 0 set to i + 1 |
| Assembly.Assemble | streamlint.py:125-141 | there is no master dataset iff no upload loaded with rows; otherwise it has the output header and as many rows as the kept tables together |
| Assembly.AssembleRows | streamlint.py:137-141 | the master dataset's rows are the kept rows in upload order, each with "Sl No" renumbered 1..N |
| Assembly.BuildMaster | streamlint.py:125-141 | the upload loop builds exactly that master dataset, skipping failed and empty files without stopping |

## Left out

- Streamlit calls are presentation only and are not modelled: title, uploader, success, warning, info and error messages, and previews.
- `pd.read_excel` is library parsing. A load is given to the model as an already-parsed table, or as `None` when it failed.
- The Excel export through `io.BytesIO`, `pd.ExcelWriter` and xlsxwriter, and the download button, are I/O and serialisation.
- pandas dtype coercion is not modelled. Numeric cells are integers, so `astype(str)` of a float ("5.0") is not modelled. It would also start with a digit and be "Yes".
- When every rule fills with a scalar, pandas leaves a frame with 0 rows. The model instead starts from one row per source row. Either way, every row is all-missing and is dropped, so the result is the same.
- Budget.Lower: lowercases ASCII letters only, because full Unicode `str.lower` has no simple definition here.
- Duplicate column names in a source sheet are not modelled. pandas would return a frame for `df[name]`. The model reads the first such column.
- Mapping a sheet twice gives the same table. This is true of every function here, so it gets no lemma of its own.
