/** Alias resolution and column mapping: builds the standardized frame from a
    source sheet by applying the alias table rule by rule (streamlint.py,
    process_file, lines 61-78). */
module Mapping {
  import opened Wrappers
  import opened Tables
  import opened Schema

  /** Position in `names` of the first candidate that is a column of `header`. */
  function FirstPresent(names: seq<string>, header: seq<string>): (r: Option<nat>)
    ensures r.None? <==> forall k :: 0 <= k < |names| ==> names[k] !in header
    ensures r.Some? ==> r.value < |names| && names[r.value] in header
    ensures r.Some? ==> forall k :: 0 <= k < r.value ==> names[k] !in header
  {
    if |names| == 0 then None
    else if names[0] in header then Some(0)
    else match FirstPresent(names[1..], header)
      case None => None
      case Some(k) => Some(k + 1)
  }

  /** The source column a rule copies, if any. A list is scanned in order
      without a truthiness test; a single name must be non-empty (an empty
      string is falsy in the source) and a column. */
  function Resolve(rule: Alias, header: seq<string>): (r: Option<string>)
    ensures r.Some? ==> r.value in header
  {
    match rule
    case NoMapping => None
    case Direct(n) => if n != "" && n in header then Some(n) else None
    case Fallback(ns) =>
      match FirstPresent(ns, header)
      case Some(k) => Some(ns[k])
      case None => None
  }

  /** The cells a rule puts into its output column: the resolved source
      column, or `np.nan` in every row. */
  function MappedCells(rule: Alias, src: Table): (r: seq<Cell>)
    requires WellFormed(src)
    ensures |r| == src.height
  {
    match Resolve(rule, Header(src))
    case Some(n) => CellsOf(src, n)
    case None => MissingCells(src.height)
  }

  /** A single-name rule copies the named source column when it exists and
      fills with missing otherwise; a `None` rule always fills with missing. */
  lemma DirectRule(n: string, src: Table)
    requires WellFormed(src)
    ensures n != "" && n in Header(src) ==> MappedCells(Direct(n), src) == CellsOf(src, n)
    ensures n == "" || n !in Header(src) ==>
              forall i :: 0 <= i < src.height ==> MappedCells(Direct(n), src)[i] == Missing
    ensures forall i :: 0 <= i < src.height ==> MappedCells(NoMapping, src)[i] == Missing
  {
  }

  /** A list rule copies the column of its first candidate present in the
      source, whatever later candidates are present; with no candidate present
      (in particular an empty list) it fills with missing. */
  lemma FallbackRule(ns: seq<string>, src: Table, k: nat)
    requires WellFormed(src)
    requires k < |ns| && ns[k] in Header(src)
    requires forall j :: 0 <= j < k ==> ns[j] !in Header(src)
    ensures MappedCells(Fallback(ns), src) == CellsOf(src, ns[k])
  {
    var r := FirstPresent(ns, Header(src));
    assert r.Some?;
    assert r.value == k;
  }

  lemma FallbackNonePresent(ns: seq<string>, src: Table)
    requires WellFormed(src)
    requires forall j :: 0 <= j < |ns| ==> ns[j] !in Header(src)
    ensures forall i :: 0 <= i < src.height ==> MappedCells(Fallback(ns), src)[i] == Missing
  {
  }

  /** The loop of lines 64-78: assign each rule's cells to its key, in dict
      order, into the frame built so far. */
  function ApplyRules(m: Mapper, acc: Table, src: Table): (r: Table)
    requires WellFormed(src) && acc.height == src.height
    ensures r.height == src.height
    decreases |m|
  {
    if |m| == 0 then acc
    else ApplyRules(m[1..], SetColumn(acc, m[0].0, MappedCells(m[0].1, src)), src)
  }

  /** `pd.DataFrame(columns=MASTER_COLUMNS)`, sized to the source's rows. */
  function EmptyMaster(h: nat): (r: Table)
    ensures WellFormed(r) && r.height == h
    ensures Header(r) == MasterColumns
    ensures forall n :: CellsOf(r, n) == MissingCells(h)
  {
    var r := Table(seq(|MasterColumns|, j requires 0 <= j < |MasterColumns| => Column(MasterColumns[j], MissingCells(h))), h);
    assert forall j :: 0 <= j < |r.columns| ==> r.columns[j].cells == MissingCells(h);
    assert Header(r) == MasterColumns;
    r
  }

  /** Lines 61-78: the standardized frame before the budget rewrite. */
  function MapColumns(m: Mapper, src: Table): (r: Table)
    requires WellFormed(src)
    ensures r.height == src.height
  {
    ApplyRules(m, EmptyMaster(src.height), src)
  }

  /** What the column called `n` holds after all rules ran: the cells of its
      rule when `n` is a key, otherwise what the starting frame held. */
  function Expected(m: Mapper, acc: Table, src: Table, n: string): seq<Cell>
    requires WellFormed(src)
  {
    match Lookup(m, n)
    case Some(rule) => MappedCells(rule, src)
    case None => CellsOf(acc, n)
  }

  /** Assigning the rules in order leaves a well-formed frame whose header
      gained the keys it did not have yet, in dict order. */
  lemma {:induction false} ApplyRulesHeader(m: Mapper, acc: Table, src: Table)
    requires WellFormed(src) && WellFormed(acc) && acc.height == src.height
    ensures WellFormed(ApplyRules(m, acc, src))
    ensures Header(ApplyRules(m, acc, src)) == Header(acc) + NewKeys(Keys(m), Header(acc))
    decreases |m|
  {
    if |m| == 0 {
      assert Header(acc) + NewKeys(Keys(m), Header(acc)) == Header(acc);
    } else {
      var (k, rule) := m[0];
      var acc' := SetColumn(acc, k, MappedCells(rule, src));
      assert Keys(m)[0] == k && Keys(m[1..]) == Keys(m)[1..];
      ApplyRulesHeader(m[1..], acc', src);
      NewKeysStep(Keys(m), Header(acc));
    }
  }

  /** After the rules ran, the column called `n` holds the cells of the rule
      stored under `n`, or what it held before when `n` is not a key. */
  lemma {:induction false} ApplyRulesCells(m: Mapper, acc: Table, src: Table)
    requires WellFormed(src) && acc.height == src.height
    requires DistinctKeys(m)
    ensures forall n :: CellsOf(ApplyRules(m, acc, src), n) == Expected(m, acc, src, n)
    decreases |m|
  {
    var r := ApplyRules(m, acc, src);
    if |m| == 0 {
      forall n
        ensures CellsOf(r, n) == Expected(m, acc, src, n)
      {
        assert Lookup(m, n).None?;
      }
    } else {
      var (k, rule) := m[0];
      var acc' := SetColumn(acc, k, MappedCells(rule, src));
      assert Keys(m[1..]) == Keys(m)[1..];
      assert DistinctKeys(m[1..]);
      ApplyRulesCells(m[1..], acc', src);
      forall n
        ensures CellsOf(r, n) == Expected(m, acc, src, n)
      {
        LookupTail(m, n);
        SetColumnCells(acc, k, MappedCells(rule, src), n);
        assert CellsOf(r, n) == Expected(m[1..], acc', src, n);
      }
    }
  }

  /** Looking a key up in a dict skips its first entry unless that entry is
      the key itself. */
  lemma LookupTail(m: Mapper, n: string)
    requires |m| > 0 && DistinctKeys(m)
    ensures n == m[0].0 ==> Lookup(m, n) == Some(m[0].1) && n !in Keys(m[1..])
    ensures n != m[0].0 ==> Lookup(m, n) == Lookup(m[1..], n)
  {
    var keys := Keys(m);
    assert Keys(m[1..]) == keys[1..];
    if n != keys[0] {
      var a, b := IndexOf(keys, n), IndexOf(keys[1..], n);
      if b.Some? {
        assert keys[b.value + 1] == n;
        assert a.Some?;
        assert a.value == b.value + 1;
      }
    } else {
      assert IndexOf(keys, n) == Some(0);
    }
  }

  /** The mapping step of process_file fixes the header, whatever the source:
      the canonical columns followed by the non-canonical keys in dict order. */
  lemma MapColumnsHeader(m: Mapper, src: Table)
    requires WellFormed(src)
    ensures WellFormed(MapColumns(m, src))
    ensures Header(MapColumns(m, src)) == OutputColumns(m)
  {
    ApplyRulesHeader(m, EmptyMaster(src.height), src);
  }

  /** Each column of the mapped frame holds exactly what its alias rule
      resolves to, and a canonical column with no rule is all missing. */
  lemma MapColumnsCells(m: Mapper, src: Table)
    requires WellFormed(src) && DistinctKeys(m)
    ensures forall n :: CellsOf(MapColumns(m, src), n)
                         == (match Lookup(m, n)
                             case Some(rule) => MappedCells(rule, src)
                             case None => MissingCells(src.height))
  {
    ApplyRulesCells(m, EmptyMaster(src.height), src);
  }
}
