/** The Yes/No normaliser for the "Demands with pledges, commitment, or
    funding (Yes/No)" field (streamlint.py, process_file, lines 80-101). */
module Budget {
  import opened Wrappers
  import opened Tables
  import opened Schema
  import opened Mapping

  /** The five phrases that mean "no budget", compared after lowercasing. */
  const NoStrings: seq<string> := [
    "not specified", "no exclusive", "not publicly specified",
    "not direct", "no dedicated budget"
  ]

  /** ASCII lowercasing; `str.lower` is modelled on ASCII letters only. */
  function LowerChar(c: char): char
  {
    if 'A' <= c <= 'Z' then (c as int + 32) as char else c
  }

  function Lower(s: string): (r: string)
    ensures |r| == |s|
    ensures forall i :: 0 <= i < |s| ==> r[i] == LowerChar(s[i])
  {
    seq(|s|, i requires 0 <= i < |s| => LowerChar(s[i]))
  }

  const Digits: string := "0123456789"

  /** `str(n)` for a natural number: its decimal digits, most significant first. */
  function NatToString(n: nat): (r: string)
    ensures |r| > 0 && r[0] in Digits
    decreases n
  {
    if n < 10 then [Digits[n]] else NatToString(n / 10) + [Digits[n % 10]]
  }

  /** `str(n)` for an integer cell. */
  function IntToString(n: int): (r: string)
    ensures |r| > 0 && (r[0] == '-' || r[0] in Digits)
  {
    if n < 0 then "-" + NatToString(-n) else NatToString(n)
  }

  /** One cell of `original_budget.fillna("").astype(str).str.lower()`. */
  function BudgetText(c: Cell): string
  {
    match c
    case Missing => ""
    case Text(s) => Lower(s)
    case Number(n) => Lower(IntToString(n))
  }

  /** One row of the `np.where` of lines 95-101: "No" when the cell is NaN,
      its text is empty, or its text is one of the phrases; "Yes" otherwise. */
  function Classify(c: Cell): (r: Cell)
    ensures r == Text("No") || r == Text("Yes")
  {
    if c.Missing? || BudgetText(c) == "" || BudgetText(c) in NoStrings then Text("No")
    else Text("Yes")
  }

  /** A row is "No" exactly when its cell is missing, the empty string, or a
      text whose lowercase form IS one of the five phrases; a numeric cell is
      always "Yes", since its decimal form starts with a digit or a sign. */
  lemma ClassifyIsNo(c: Cell)
    ensures Classify(c) == Text("No")
        <==> c == Missing || c == Text("") || (c.Text? && Lower(c.text) in NoStrings)
  {
    match c
    case Missing =>
    case Text(s) =>
      if Lower(s) == "" {
        assert s == "";
      }
    case Number(n) =>
      var t := IntToString(n);
      assert Lower(t)[0] == t[0];
      forall k | 0 <= k < |NoStrings|
        ensures Lower(t) != NoStrings[k]
      {
        assert NoStrings[k][0] == 'n';
      }
  }

  /** The classification does not depend on letter case. */
  lemma ClassifyIgnoresCase(s: string, t: string)
    requires Lower(s) == Lower(t)
    ensures Classify(Text(s)) == Classify(Text(t))
  {
  }

  /** Worked cases: missing and empty cells, and phrases in any letter case,
      are "No". */
  lemma ClassifyNoExamples()
    ensures Classify(Missing) == Text("No")
    ensures Classify(Text("")) == Text("No")
    ensures Classify(Text("Not Specified")) == Text("No")
    ensures Classify(Text("NO DEDICATED BUDGET")) == Text("No")
  {
    assert Lower("Not Specified") == "not specified";
    assert Lower("NO DEDICATED BUDGET") == "no dedicated budget";
  }

  /** Worked cases: the match is against the whole text, with no trimming and
      no substring search, so these are "Yes". */
  lemma ClassifyYesExamples()
    ensures Classify(Text("$2M allocated")) == Text("Yes")
    ensures Classify(Text("Yes, $500k")) == Text("Yes")
    ensures Classify(Text(" not specified")) == Text("Yes")
    ensures Classify(Text("No exclusive funding identified")) == Text("Yes")
    ensures Classify(Number(0)) == Text("Yes")
  {
    assert Lower("$2M allocated")[0] == '$';
    assert Lower("Yes, $500k")[0] == 'y';
    ClassifyIsNo(Number(0));
  }

  /** The whole `np.where` column. */
  function ClassifyColumn(cells: seq<Cell>): (r: seq<Cell>)
    ensures |r| == |cells|
    ensures forall i :: 0 <= i < |cells| ==> r[i] == Classify(cells[i])
  {
    seq(|cells|, i requires 0 <= i < |cells| => Classify(cells[i]))
  }

  /** Lines 81-86 as written: `mapper.get` of the budget field, the first
      present candidate for a list, then the truthiness-and-membership test. */
  function BudgetSource(m: Mapper, header: seq<string>): (r: Option<string>)
    ensures r.Some? ==> r.value != "" && r.value in header
  {
    var name: Option<string> :=
      match Lookup(m, BudgetField)
      case None => None
      case Some(NoMapping) => None
      case Some(Direct(n)) => Some(n)
      case Some(Fallback(ns)) =>
        match FirstPresent(ns, header)
        case Some(k) => Some(ns[k])
        case None => None;
    if name.Some? && name.value != "" && name.value in header then name else None
  }

  /** The normaliser reads the same source column that the mapping loop copied
      into the budget field, except when that column is named "": a list rule
      copies it, but the truthiness test then skips the rewrite. */
  lemma BudgetSourceResolves(m: Mapper, header: seq<string>)
    ensures BudgetSource(m, header)
         == match Lookup(m, BudgetField)
            case None => None
            case Some(rule) => if Resolve(rule, header) == Some("") then None else Resolve(rule, header)
  {
  }

  /** Lines 80-101: rewrite the budget field from its backing source column,
      when one resolves; otherwise leave the frame as the mapping left it. */
  function Normalise(std: Table, m: Mapper, src: Table): (r: Table)
    requires WellFormed(src) && std.height == src.height
    ensures r.height == std.height
    ensures WellFormed(std) ==> WellFormed(r)
    ensures BudgetField in Header(std) ==> Header(r) == Header(std)
  {
    match BudgetSource(m, Header(src))
    case Some(b) => SetColumn(std, BudgetField, ClassifyColumn(CellsOf(src, b)))
    case None => std
  }

  /** With a backing column every row of the budget field is its Yes/No
      classification; without one the field keeps the mapper's fill. No other
      column changes. */
  lemma NormaliseSpec(std: Table, m: Mapper, src: Table, n: string)
    requires WellFormed(src) && std.height == src.height
    ensures BudgetSource(m, Header(src)).Some? ==>
              CellsOf(Normalise(std, m, src), BudgetField)
              == ClassifyColumn(CellsOf(src, BudgetSource(m, Header(src)).value))
    ensures BudgetSource(m, Header(src)).None? ==>
              CellsOf(Normalise(std, m, src), BudgetField) == CellsOf(std, BudgetField)
    ensures n != BudgetField ==> CellsOf(Normalise(std, m, src), n) == CellsOf(std, n)
  {
    match BudgetSource(m, Header(src))
    case Some(b) =>
      SetColumnCells(std, BudgetField, ClassifyColumn(CellsOf(src, b)), n);
    case None =>
  }
}
