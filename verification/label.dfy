/**
 * The "Gerar Rótulo" page: the label of the most recent intake of an NI,
 * joined with the catalogs. The HTML rendering is not modelled; the label is
 * the record of the values it shows.
 */
module Label {
  import opened Wrappers
  import opened Seqs
  import opened Records
  import opened Catalog
  import opened Choices

  /** The label's lines; `incompatibility` is None when its red line is not shown. */
  datatype LabelView = LabelView(
    ni: string,
    description: Cell,
    supplier: Cell,
    quantity: real,
    area: Cell,
    date: Cell,
    incompatibility: Option<string>)

  /** `k` is the last row of the table holding NI `ni`. */
  predicate IsLastWithNi(table: seq<Row>, ni: string, k: int) {
    0 <= k < |table| && table[k].ni == Text(ni) &&
    forall j :: k < j < |table| ==> table[j].ni != Text(ni)
  }

  /**
   * The label for the chosen NI: None when nothing is chosen (""), or when no
   * row holds it; otherwise built from the last such row.
   */
  function LabelFor(ni: string, table: seq<Row>, materials: seq<MaterialRow>, compat: CompatibilityTable): (r: Option<LabelView>)
    ensures r.None? <==> ni == "" || forall i :: 0 <= i < |table| ==> table[i].ni != Text(ni)
    ensures r.Some? ==>
      (exists k :: IsLastWithNi(table, ni, k) &&
         r.value.supplier == table[k].supplier && r.value.quantity == table[k].quantity &&
         r.value.area == table[k].area && r.value.date == table[k].date &&
         r.value.description == (if LookupDescription(ni, materials) != "" then Text(LookupDescription(ni, materials))
                                 else table[k].description))
    ensures r.Some? ==>
      (r.value.ni == ni &&
       (r.value.incompatibility.Some? <==> LookupIncompatibility(ni, compat) != "") &&
       (r.value.incompatibility.Some? ==> r.value.incompatibility.value == LookupIncompatibility(ni, compat)))
  {
    if ni == "" then None
    else match LastWhere(table, (x: Row) => x.ni == Text(ni))
      case None => None
      case Some(k) =>
        var item := table[k];
        var descricao := LookupDescription(ni, materials);
        var compatibilidade := LookupIncompatibility(ni, compat);
        assert IsLastWithNi(table, ni, k);
        Some(LabelView(
          ni,
          if descricao != "" then Text(descricao) else item.description,
          item.supplier, item.quantity, item.area, item.date,
          if compatibilidade != "" then Some(compatibilidade) else None))
  }

  /** Every NI the label dropdown offers (past its "" sentinel) has a label. */
  lemma ChosenNiHasLabel(table: seq<Row>, materials: seq<MaterialRow>, compat: CompatibilityTable, ni: string)
    requires ni in NiChoices(table)[1..] && ni != ""
    ensures LabelFor(ni, table, materials, compat).Some?
  {
    var i :| 0 <= i < |table| && table[i].ni == Text(ni);
  }

  /** The last intake recorded for an NI is the one its label shows: appending a row takes over the label. */
  lemma {:induction false} LabelShowsLatestIntake(table: seq<Row>, x: Row, materials: seq<MaterialRow>, compat: CompatibilityTable)
    requires x.ni.Text? && x.ni.value != ""
    ensures var r := LabelFor(x.ni.value, table + [x], materials, compat);
      r.Some? && r.value.supplier == x.supplier && r.value.quantity == x.quantity &&
      r.value.area == x.area && r.value.date == x.date
  {
    var t := table + [x];
    var r := LabelFor(x.ni.value, t, materials, compat);
    assert t[|table|] == x;
    var k :| IsLastWithNi(t, x.ni.value, k);
    assert k == |table|;
  }
}
