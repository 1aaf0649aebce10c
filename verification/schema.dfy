/** The schema registry: the canonical output columns of the master dataset and
    the alias table that says, per output column, which source column feeds it. */
module Schema {
  import opened Wrappers
  import opened Tables

  /** One entry of the alias table. In the source a rule is `None`, a single
      column name, or a list of candidate names tried in order. */
  datatype Alias = NoMapping | Direct(name: string) | Fallback(names: seq<string>)

  /** The alias table as a dict: (output column, rule) pairs in insertion order. */
  type Mapper = seq<(string, Alias)>

  const SlNo: string := "Sl No"
  const BudgetField: string := "Demands with pledges, commitment, or funding (Yes/No)"
  const ThematicFocus: string :=
    "Thematic Focus (Brief description of the main themes or sectors covered (e.g., agriculture, forestry, gender, employment).)"
  const ImplementationAgency: string := "Implementation Agency (Ministry/departments/boards, etc..)"
  const BudgetAllocation: string :=
    "Budget Allocation (if any) Indicate if there is any budget attached and its size or source."

  /** The 18 canonical columns, in output order. */
  const MasterColumns: seq<string> := [
    SlNo, "Title", "Type of document", "Publication/Adoption Date", "Country",
    "Goals/objectives/vision statements", "Problems/challenges identified",
    "Calls for action/intervention", BudgetField,
    "Indicators of urgency/priority", "Type of demand", "Description of the specific Innovation(s)",
    "Type of Innovation", "CGIAR Impact Area(s)", "SDG Contribution",
    "Stakeholder groups involved", "Stakeholder group needs/demand/effective demand", "URL"
  ]

  /** The alias table the upload shell applies to every file. */
  const MapperClim: Mapper := [
    (SlNo, Direct("Sl No")),
    ("Country", Direct("Country")),
    ("Title", Fallback(["Type of document (Policy; Program; Implementation plans; strategic plans, etc)", "Policy"])),
    ("Type of document", Direct("Policy Type \n(e.g., Policy, Strategy, Action Plan.)")),
    ("Publication/Adoption Date", Fallback(["Publication/Adoption Date", "Year of adoption"])),
    (ThematicFocus, Direct(ThematicFocus)),
    ("Goals/objectives/vision statements",
      Direct("Objectives/Goals (Short summary of the stated aims or goals of the policy).")),
    ("Problems/challenges identified",
      Direct("Remarks \n(Additional notes, such as challenges, reforms in progress, or relevance to global frameworks (e.g., SDGs).)")),
    ("Calls for action/intervention",
      Direct("Key Provisions or Measures\nSummary of major policy actions or mechanisms introduced.")),
    (BudgetField, Direct(BudgetAllocation)),
    ("Description of the specific Innovation(s)",
      Direct("Implementation Mechanism (Description of how the policy is implemented (e.g., through specific programs, agencies, funding mechanisms).)")),
    ("SDG Contribution",
      Direct("Policy Linkages\nRelated policies or alignment with international frameworks (e.g., SDGs, UNFCCC).")),
    ("Stakeholder groups involved", Direct("Implementation Agency \n(Ministry/departments/boards, etc..)")),
    ("URL", Fallback(["URL", "Link to Full Document"])),
    (ImplementationAgency, Direct(ImplementationAgency)),
    ("Indicators of urgency/priority", NoMapping),
    ("Type of demand", NoMapping),
    ("Type of Innovation", NoMapping),
    ("CGIAR Impact Area(s)", NoMapping),
    ("Stakeholder group needs/demand/effective demand", NoMapping)
  ]

  function Keys(m: Mapper): (r: seq<string>)
    ensures |r| == |m|
    ensures forall i :: 0 <= i < |m| ==> r[i] == m[i].0
  {
    seq(|m|, i requires 0 <= i < |m| => m[i].0)
  }

  /** A Python dict never holds a key twice. */
  predicate DistinctKeys(m: Mapper)
  {
    Distinct(Keys(m))
  }

  /** `mapper.get(key)`: the rule stored under `key`, if any. */
  function Lookup(m: Mapper, key: string): (r: Option<Alias>)
    ensures r.None? <==> key !in Keys(m)
  {
    match IndexOf(Keys(m), key)
    case Some(i) => Some(m[i].1)
    case None => None
  }

  /** The keys that assigning them one by one appends to a frame whose columns
      are `existing`: those not yet present, each once, in first-seen order. */
  function NewKeys(keys: seq<string>, existing: seq<string>): seq<string>
    decreases |keys|
  {
    if |keys| == 0 then []
    else if keys[0] in existing then NewKeys(keys[1..], existing)
    else [keys[0]] + NewKeys(keys[1..], existing + [keys[0]])
  }

  /** The header of every standardized table: the canonical columns, then the
      mapper keys that are not canonical, in dict order. */
  function OutputColumns(m: Mapper): seq<string>
  {
    MasterColumns + NewKeys(Keys(m), MasterColumns)
  }

  lemma {:induction false} NewKeysSpec(keys: seq<string>, existing: seq<string>)
    ensures forall x :: x in NewKeys(keys, existing) <==> x in keys && x !in existing
    ensures Distinct(existing) ==> Distinct(existing + NewKeys(keys, existing))
    decreases |keys|
  {
    if |keys| > 0 {
      var k := keys[0];
      assert keys == [k] + keys[1..];
      if k in existing {
        NewKeysSpec(keys[1..], existing);
      } else {
        NewKeysSpec(keys[1..], existing + [k]);
        assert existing + NewKeys(keys, existing) == (existing + [k]) + NewKeys(keys[1..], existing + [k]);
        if Distinct(existing) {
          assert Distinct(existing + [k]);
        }
      }
    }
  }

  /** One assignment step: after `k` is appended when new, the keys that are
      still new after it extend the header just as all the keys would have. */
  lemma NewKeysStep(keys: seq<string>, h: seq<string>)
    requires |keys| > 0
    ensures var h' := if keys[0] in h then h else h + [keys[0]];
            h' + NewKeys(keys[1..], h') == h + NewKeys(keys, h)
  {
    var k := keys[0];
    if k !in h {
      assert (h + [k]) + NewKeys(keys[1..], h + [k]) == h + ([k] + NewKeys(keys[1..], h + [k]));
    }
  }

  lemma MasterColumnsShape()
    ensures |MasterColumns| == 18
    ensures MasterColumns[0] == SlNo && MasterColumns[8] == BudgetField
    ensures Distinct(MasterColumns)
  {
  }

  /** The header is the 18 canonical columns in order, followed by the extra
      keys; it names every canonical column and every key exactly once. */
  lemma OutputColumnsSpec(m: Mapper)
    ensures OutputColumns(m)[..18] == MasterColumns
    ensures forall x :: x in OutputColumns(m) <==> x in MasterColumns || x in Keys(m)
    ensures Distinct(OutputColumns(m))
    ensures forall j :: 0 <= j < |OutputColumns(m)| ==> (OutputColumns(m)[j] == SlNo <==> j == 0)
  {
    MasterColumnsShape();
    NewKeysSpec(Keys(m), MasterColumns);
  }

  /** The key at dict position `i` of the shipped alias table differs from
      every later key. */
  lemma ClimKeyUnique(i: nat)
    requires i < 20
    ensures forall j :: i < j < 20 ==> Keys(MapperClim)[i] != Keys(MapperClim)[j]
  {
  }

  /** For the shipped alias table: no key is repeated. */
  lemma MapperClimKeysDistinct()
    ensures DistinctKeys(MapperClim)
  {
    forall i | 0 <= i < 20
      ensures forall j :: i < j < 20 ==> Keys(MapperClim)[i] != Keys(MapperClim)[j]
    {
      ClimKeyUnique(i);
    }
  }

  /** The budget field of the shipped alias table is fed by one source column. */
  lemma MapperClimBudgetRule()
    ensures Lookup(MapperClim, BudgetField) == Some(Direct(BudgetAllocation))
  {
    MapperClimKeysDistinct();
    var keys := Keys(MapperClim);
    assert keys[9] == BudgetField;
    var i := IndexOf(keys, BudgetField);
    assert i.Some?;
    assert i.value == 9;
  }

  /** Keys that are already columns are passed over. */
  lemma {:induction false} NewKeysSkip(pre: seq<string>, rest: seq<string>, existing: seq<string>)
    requires forall i :: 0 <= i < |pre| ==> pre[i] in existing
    ensures NewKeys(pre + rest, existing) == NewKeys(rest, existing)
    decreases |pre|
  {
    if |pre| > 0 {
      assert (pre + rest)[0] == pre[0];
      assert (pre + rest)[1..] == pre[1..] + rest;
      NewKeysSkip(pre[1..], rest, existing);
    } else {
      assert pre + rest == rest;
    }
  }

  /** Every key of the shipped alias table except the two at dict positions
      5 and 14 is one of the canonical columns. */
  lemma ClimKeysCanonical(i: nat)
    requires i < 20 && i != 5 && i != 14
    ensures Keys(MapperClim)[i] in MasterColumns
  {
  }

  lemma ClimExtrasNotCanonical()
    ensures ThematicFocus !in MasterColumns && ImplementationAgency !in MasterColumns
  {
  }

  lemma ClimKeysCanonicalRange(lo: nat, hi: nat)
    requires lo <= hi <= 20
    requires hi <= 5 || 6 <= lo
    requires hi <= 14 || 15 <= lo
    ensures forall i :: 0 <= i < hi - lo ==> Keys(MapperClim)[lo..hi][i] in MasterColumns + [ThematicFocus]
  {
    forall i | 0 <= i < hi - lo
      ensures Keys(MapperClim)[lo..hi][i] in MasterColumns + [ThematicFocus]
    {
      ClimKeysCanonical(lo + i);
    }
  }

  /** The first extra key is the thematic-focus column, at dict position 5. */
  lemma ClimExtrasHead()
    ensures NewKeys(Keys(MapperClim), MasterColumns)
         == [ThematicFocus] + NewKeys(Keys(MapperClim)[6..], MasterColumns + [ThematicFocus])
  {
    var k := Keys(MapperClim);
    ClimKeysCanonicalRange(0, 5);
    ClimExtrasNotCanonical();
    assert k[5] == ThematicFocus;
    assert k == k[..5] + k[5..];
    NewKeysSkip(k[..5], k[5..], MasterColumns);
    assert k[5..][1..] == k[6..];
  }

  /** The second extra key is the implementing-agency column, at dict position 14. */
  lemma ClimExtrasTail()
    ensures NewKeys(Keys(MapperClim)[6..], MasterColumns + [ThematicFocus]) == [ImplementationAgency]
  {
    var k := Keys(MapperClim);
    var m1 := MasterColumns + [ThematicFocus];
    var m2 := m1 + [ImplementationAgency];
    ClimKeysCanonicalRange(6, 14);
    ClimKeysCanonicalRange(15, 20);
    ClimExtrasNotCanonical();
    assert k[14] == ImplementationAgency;
    assert k[6..] == k[6..14] + k[14..];
    NewKeysSkip(k[6..14], k[14..], m1);
    assert k[14..][1..] == k[15..];
    assert k[15..] == k[15..20] + [];
    forall i | 0 <= i < 5
      ensures k[15..20][i] in m2
    {
    }
    NewKeysSkip(k[15..20], [], m2);
  }

  /** Exactly two keys of the shipped alias table fall outside the canonical
      columns, so every standardized table has 20 columns. */
  lemma MapperClimExtras()
    ensures NewKeys(Keys(MapperClim), MasterColumns) == [ThematicFocus, ImplementationAgency]
    ensures |OutputColumns(MapperClim)| == 20
  {
    ClimExtrasHead();
    ClimExtrasTail();
  }
}
