/** Tables as the pipeline sees them: a sequence of named columns of cells over
    a common row index. A source sheet, a standardized table and the master
    dataset all have this shape. */
module Tables {
  import opened Wrappers

  /** One spreadsheet cell. `Missing` is pandas' NaN; `Number` is a numeric
      cell, which is what the renumbered "Sl No" column holds. */
  datatype Cell = Missing | Text(text: string) | Number(value: int)

  datatype Column = Column(name: string, cells: seq<Cell>)

  /** `height` is the length of the row index; it is kept apart from the
      columns because a frame may have rows and no columns. */
  datatype Table = Table(columns: seq<Column>, height: nat)

  function Names(cols: seq<Column>): (r: seq<string>)
    ensures |r| == |cols|
    ensures forall j :: 0 <= j < |cols| ==> r[j] == cols[j].name
  {
    seq(|cols|, j requires 0 <= j < |cols| => cols[j].name)
  }

  /** The column names in order, i.e. the header row. */
  function Header(t: Table): seq<string>
  {
    Names(t.columns)
  }

  /** Every column has one cell per row. */
  predicate WellFormed(t: Table)
  {
    forall j :: 0 <= j < |t.columns| ==> |t.columns[j].cells| == t.height
  }

  predicate Distinct(xs: seq<string>)
  {
    forall i, j :: 0 <= i < j < |xs| ==> xs[i] != xs[j]
  }

  /** Position of the first occurrence of `x` in `xs`. */
  function IndexOf(xs: seq<string>, x: string): (r: Option<nat>)
    ensures r.None? <==> x !in xs
    ensures r.Some? ==> r.value < |xs| && xs[r.value] == x
    ensures r.Some? ==> forall k :: 0 <= k < r.value ==> xs[k] != x
  {
    if |xs| == 0 then None
    else if xs[0] == x then Some(0)
    else match IndexOf(xs[1..], x)
      case None => None
      case Some(k) => Some(k + 1)
  }

  /** Appending a different name does not move the first occurrence of `x`. */
  lemma IndexOfAppend(xs: seq<string>, y: string, x: string)
    requires x != y
    ensures IndexOf(xs + [y], x) == IndexOf(xs, x)
  {
    var b := IndexOf(xs, x);
    if b.Some? {
      assert (xs + [y])[b.value] == x;
    } else {
      assert x !in xs + [y];
    }
  }

  /** A column of `h` missing cells, what `df[name] = np.nan` produces. */
  function MissingCells(h: nat): (r: seq<Cell>)
    ensures |r| == h
    ensures forall i :: 0 <= i < h ==> r[i] == Missing
  {
    seq(h, _ => Missing)
  }

  /** `df[name]`: the cells of the first column called `name`, or an all-missing
      column when there is none. */
  function CellsOf(t: Table, name: string): (r: seq<Cell>)
    ensures WellFormed(t) ==> |r| == t.height
    ensures name !in Header(t) ==> r == MissingCells(t.height)
  {
    match IndexOf(Header(t), name)
    case Some(j) => t.columns[j].cells
    case None => MissingCells(t.height)
  }

  /** `df[name] = cells`: overwrite the column in place when the name is
      already a column, otherwise append it at the right-hand end. */
  function SetColumn(t: Table, name: string, cells: seq<Cell>): (r: Table)
    requires |cells| == t.height
    ensures r.height == t.height
    ensures WellFormed(t) ==> WellFormed(r)
    ensures Header(r) == if name in Header(t) then Header(t) else Header(t) + [name]
  {
    match IndexOf(Header(t), name)
    case Some(j) =>
      var r := Table(t.columns[j := Column(name, cells)], t.height);
      assert Header(r) == Header(t);
      r
    case None =>
      var r := Table(t.columns + [Column(name, cells)], t.height);
      assert Header(r) == Header(t) + [name];
      r
  }

  /** After the assignment, `df[name]` reads back the new cells and every
      other name reads what it read before. */
  lemma SetColumnCells(t: Table, name: string, cells: seq<Cell>, n: string)
    requires |cells| == t.height
    ensures CellsOf(SetColumn(t, name, cells), name) == cells
    ensures n != name ==> CellsOf(SetColumn(t, name, cells), n) == CellsOf(t, n)
  {
    if name !in Header(t) && n != name {
      IndexOfAppend(Header(t), name, n);
    }
  }

  /** Row `i` read across all columns. */
  function Row(t: Table, i: nat): (r: seq<Cell>)
    requires WellFormed(t) && i < t.height
    ensures |r| == |t.columns|
    ensures forall j :: 0 <= j < |t.columns| ==> r[j] == t.columns[j].cells[i]
  {
    seq(|t.columns|, j requires 0 <= j < |t.columns| => t.columns[j].cells[i])
  }

  /** The table read row by row. */
  function Rows(t: Table): (r: seq<seq<Cell>>)
    requires WellFormed(t)
    ensures |r| == t.height
    ensures forall i :: 0 <= i < t.height ==> r[i] == Row(t, i)
  {
    seq(t.height, i requires 0 <= i < t.height => Row(t, i))
  }
}
