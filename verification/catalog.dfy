/**
 * The reference catalogs: the materials sheet ("Planilha3", description in
 * its second column keyed by its first) and the compatibility sheet
 * ("Compatibilidade", keyed by its "NI" column).
 */
module Catalog {
  import opened Wrappers
  import opened Seqs

  /** A materials row: its first column read as a string, and its second column. */
  datatype MaterialRow = MaterialRow(key: string, description: string)

  /** A compatibility row: its "NI" column read as a string, and its "Materiais Incompatíveis" column. */
  datatype CompatibilityRow = CompatibilityRow(ni: string, incompatible: string)

  /**
   * The compatibility sheet; `hasIncompatibleColumn` says whether it has a
   * "Materiais Incompatíveis" column at all (when it does not, the
   * `incompatible` fields mean nothing).
   */
  datatype CompatibilityTable = CompatibilityTable(rows: seq<CompatibilityRow>, hasIncompatibleColumn: bool)

  /**
   * `get_material_description`: the description of the first materials row
   * whose key equals `ni`; "" when `ni` is empty, the sheet is empty or no
   * row matches.
   */
  function LookupDescription(ni: string, materials: seq<MaterialRow>): (r: string)
    ensures ni == "" || |materials| == 0 ==> r == ""
    ensures (forall i :: 0 <= i < |materials| ==> materials[i].key != ni) ==> r == ""
    ensures forall i :: 0 <= i < |materials| && ni != "" && materials[i].key == ni
                        && (forall j :: 0 <= j < i ==> materials[j].key != ni)
                        ==> r == materials[i].description
  {
    if |materials| == 0 || ni == "" then ""
    else match FirstWhere(materials, (m: MaterialRow) => m.key == ni)
      case None => ""
      case Some(i) => materials[i].description
  }

  /**
   * `get_compatibility_info`: the incompatibility text of the first
   * compatibility row whose NI equals `ni`, or "" when the sheet has no such
   * column; "" when `ni` is empty, the sheet is empty or no row matches.
   */
  function LookupIncompatibility(ni: string, compat: CompatibilityTable): (r: string)
    ensures ni == "" || |compat.rows| == 0 || !compat.hasIncompatibleColumn ==> r == ""
    ensures (forall i :: 0 <= i < |compat.rows| ==> compat.rows[i].ni != ni) ==> r == ""
    ensures forall i :: 0 <= i < |compat.rows| && ni != "" && compat.hasIncompatibleColumn
                        && compat.rows[i].ni == ni
                        && (forall j :: 0 <= j < i ==> compat.rows[j].ni != ni)
                        ==> r == compat.rows[i].incompatible
  {
    if |compat.rows| == 0 || ni == "" then ""
    else match FirstWhere(compat.rows, (c: CompatibilityRow) => c.ni == ni)
      case None => ""
      case Some(i) => if compat.hasIncompatibleColumn then compat.rows[i].incompatible else ""
  }

  /** Rows after the first match never change a lookup: later duplicates of a key are shadowed. */
  lemma {:induction false} LookupDescriptionIgnoresLaterRows(ni: string, materials: seq<MaterialRow>, more: seq<MaterialRow>)
    requires exists i :: 0 <= i < |materials| && materials[i].key == ni
    ensures LookupDescription(ni, materials + more) == LookupDescription(ni, materials)
  {
    var all := materials + more;
    var i :| 0 <= i < |materials| && materials[i].key == ni;
    var k := FirstWhere(materials, (m: MaterialRow) => m.key == ni).value;
    assert all[k] == materials[k];
    forall j | 0 <= j < k ensures all[j].key != ni {
      assert all[j] == materials[j];
    }
  }
}
