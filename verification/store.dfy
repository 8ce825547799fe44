/**
 * The "Recebimento" worksheet and the in-memory table read from it. Loading
 * yields the table, or an empty one when the sheet cannot be read as one;
 * saving clears the sheet, writes the header and then appends every row.
 * Submitting saves the table with the new record appended and reruns the
 * page, which reloads the table from the sheet.
 */
module Store {
  import opened Wrappers
  import opened Seqs
  import opened Dates
  import opened Records
  import opened Intake
  import opened Query

  /**
   * A worksheet cell as `get_all_records` reads it: text, or a number. A
   * blank cell reads as the empty text. A stored number may sit in any
   * column; text that a save writes is read back as that text.
   */
  datatype SheetValue = TextValue(cell: Cell) | Number(x: real)

  type Sheet = seq<seq<SheetValue>>

  /** The header row written by a save: the column names in order. */
  function HeaderRow(): (h: seq<SheetValue>)
    ensures |h| == |Columns| && forall i :: 0 <= i < |Columns| ==> h[i] == TextValue(Text(Columns[i]))
  {
    seq(|Columns|, i requires 0 <= i < |Columns| => TextValue(Text(Columns[i])))
  }

  predicate IsIntValue(v: SheetValue) {
    v.Number? && v.x.Floor as real == v.x
  }

  /** The number a string of decimal digits writes. */
  function DigitsValue(s: string): int {
    if s == [] then 0 else DigitsValue(s[..|s| - 1]) * 10 + DigitValue(s[|s| - 1])
  }

  /** `str(n)` for a natural number: its decimal digits, with no leading zero. */
  function NatText(n: nat): (s: string)
    ensures |s| >= 1 && forall k :: 0 <= k < |s| ==> IsDigit(s[k])
    ensures s[0] == '0' ==> n == 0
    ensures DigitsValue(s) == n
  {
    if n < 10 then [DigitChar(n)]
    else
      var s := NatText(n / 10) + [DigitChar(n % 10)];
      assert s[..|s| - 1] == NatText(n / 10);
      s
  }

  /** `str(n)` for an integer: a minus sign before the digits of a negative one. */
  function IntText(n: int): (s: string)
    ensures n < 0 <==> (|s| > 0 && s[0] == '-')
  {
    if n < 0 then "-" + NatText(-n) else NatText(n)
  }

  /** Different numbers have different texts, so reading a converted cell as text keeps it apart from every other. */
  lemma IntTextInjective(a: int, b: int)
    requires IntText(a) == IntText(b)
    ensures a == b
  {
    if a < 0 {
      assert IntText(a)[1..] == NatText(-a) && IntText(b)[1..] == NatText(-b);
    }
  }

  /** A row as `append_row` writes it: one value per column, in column order. */
  function EncodeRow(r: Row): (cells: seq<SheetValue>)
    ensures |cells| == |Columns|
  {
    [TextValue(r.testPeriod), TextValue(r.invoiceItemMaterial), TextValue(r.invoice),
     TextValue(r.rr), TextValue(r.rr2), TextValue(r.accessKey), TextValue(r.supplier),
     Number(r.quantity), TextValue(r.description), TextValue(r.materialType), TextValue(r.ni),
     TextValue(r.area), TextValue(r.palletMeasure), TextValue(r.scheduled),
     TextValue(r.receiver), TextValue(r.status), TextValue(r.observation),
     TextValue(r.processNumber), TextValue(r.control), TextValue(r.date),
     Number(r.day as real), Number(r.month as real), Number(r.year as real), TextValue(r.powerAppsId)]
  }

  /** Columns 7 (quantity) and 20 to 22 (day, month, year) hold numbers; the others text. */
  predicate IsNumericColumn(i: int) {
    i == 7 || 20 <= i <= 22
  }

  /**
   * A stored line as the table holds it: a whole number the sheet service
   * converted in a text column becomes its decimal text.
   */
  function NormalizeRow(c: seq<SheetValue>): (n: seq<SheetValue>)
    ensures |n| == |c|
  {
    seq(|c|, i requires 0 <= i < |c| =>
      if !IsNumericColumn(i) && IsIntValue(c[i]) then TextValue(Text(IntText(c[i].x.Floor))) else c[i])
  }

  /** No text column of the line holds a converted number. */
  predicate HasNoConvertedCells(c: seq<SheetValue>) {
    forall i :: 0 <= i < |c| && !IsNumericColumn(i) ==> !c[i].Number?
  }

  /** The shape of a stored intake row: one value per column, numbers in the numeric columns, text or whole numbers in the others. */
  predicate IsRowShaped(c: seq<SheetValue>) {
    |c| == |Columns| &&
    (forall i :: 0 <= i < |c| && !IsNumericColumn(i) ==> c[i].TextValue? || IsIntValue(c[i])) &&
    c[7].Number? && IsIntValue(c[20]) && IsIntValue(c[21]) && IsIntValue(c[22])
  }

  /** A line shaped as a row with text in every text column. */
  predicate IsTextShaped(c: seq<SheetValue>) {
    IsRowShaped(c) && HasNoConvertedCells(c)
  }

  lemma NormalizedShape(c: seq<SheetValue>)
    requires IsRowShaped(c)
    ensures IsTextShaped(NormalizeRow(c))
  {
  }

  function CellsRow(d: seq<SheetValue>): Row
    requires IsTextShaped(d)
  {
    Row(
      d[0].cell, d[1].cell, d[2].cell, d[3].cell, d[4].cell,
      d[5].cell, d[6].cell, d[7].x, d[8].cell, d[9].cell,
      d[10].cell, d[11].cell, d[12].cell, d[13].cell, d[14].cell,
      d[15].cell, d[16].cell, d[17].cell, d[18].cell, d[19].cell,
      d[20].x.Floor, d[21].x.Floor, d[22].x.Floor, d[23].cell)
  }

  function RowOf(c: seq<SheetValue>): Row
    requires IsRowShaped(c)
  {
    NormalizedShape(c);
    CellsRow(NormalizeRow(c))
  }

  /** A stored row read back, or None when it does not have the table's shape. */
  function DecodeRow(c: seq<SheetValue>): Option<Row> {
    if IsRowShaped(c) then Some(RowOf(c)) else None
  }

  /** What a save writes holds only text in the text columns and reads back column by column. */
  lemma EncodeRowShape(r: Row)
    ensures IsTextShaped(EncodeRow(r))
    ensures NormalizeRow(EncodeRow(r)) == EncodeRow(r)
    ensures CellsRow(EncodeRow(r)) == r
  {
    var c := EncodeRow(r);
    assert IsTextShaped(c);
  }

  /** A line with text in every text column is what writing its row produces. */
  lemma EncodeCellsRow(d: seq<SheetValue>)
    requires IsTextShaped(d)
    ensures EncodeRow(CellsRow(d)) == d
  {
    var e := EncodeRow(CellsRow(d));
    forall i | 0 <= i < |d| ensures e[i] == d[i] {
      if !IsNumericColumn(i) {
        assert d[i].TextValue?;
      }
    }
  }

  lemma DecodeEncodeRow(r: Row)
    ensures DecodeRow(EncodeRow(r)) == Some(r)
  {
    EncodeRowShape(r);
  }

  /**
   * A stored line that decodes is the encoding of its row once its converted
   * numbers are written as text; a line without them is exactly that encoding.
   */
  lemma EncodeDecodeRow(c: seq<SheetValue>, r: Row)
    requires DecodeRow(c) == Some(r)
    ensures EncodeRow(r) == NormalizeRow(c)
    ensures HasNoConvertedCells(c) ==> EncodeRow(r) == c
  {
    NormalizedShape(c);
    EncodeCellsRow(NormalizeRow(c));
    var n := NormalizeRow(c);
    forall i | 0 <= i < |c| && HasNoConvertedCells(c) ensures n[i] == c[i] {
    }
  }

  /** Converting one text cell of a line that holds only text changes only that cell. */
  lemma NormalizeOneConverted(e: seq<SheetValue>, j: nat, n: int)
    requires j < |e| && !IsNumericColumn(j) && NormalizeRow(e) == e
    ensures NormalizeRow(e[j := Number(n as real)]) == e[j := TextValue(Text(IntText(n)))]
  {
    var c := e[j := Number(n as real)];
    forall i | 0 <= i < |c| ensures NormalizeRow(c)[i] == e[j := TextValue(Text(IntText(n)))][i] {
      if i != j {
        assert NormalizeRow(e)[i] == e[i];
      }
    }
  }

  /** An NI the sheet service converted to the whole number `n` reads back as the text of `n`. */
  lemma ConvertedNiIsReadAsText(r: Row, n: int)
    ensures DecodeRow(EncodeRow(r)[10 := Number(n as real)]) == Some(r.(ni := Text(IntText(n))))
  {
    var e := EncodeRow(r);
    var c := e[10 := Number(n as real)];
    var r' := r.(ni := Text(IntText(n)));
    EncodeRowShape(r);
    EncodeRowShape(r');
    NormalizeOneConverted(e, 10, n);
    assert NormalizeRow(c) == EncodeRow(r');
    assert IsRowShaped(c) by {
      forall i | 0 <= i < |c| && !IsNumericColumn(i) ensures c[i].TextValue? || IsIntValue(c[i]) {
        if i != 10 {
          assert c[i] == e[i];
        }
      }
    }
  }

  function EncodeRows(rows: seq<Row>): (s: Sheet)
    ensures |s| == |rows| && forall i :: 0 <= i < |rows| ==> s[i] == EncodeRow(rows[i])
  {
    seq(|rows|, i requires 0 <= i < |rows| => EncodeRow(rows[i]))
  }

  /** The lines below the header as rows: every line must read as a row. */
  function DecodeRows(s: Sheet): (r: Option<seq<Row>>)
    ensures r.Some? <==> forall k :: 0 <= k < |s| ==> DecodeRow(s[k]).Some?
    ensures r.Some? ==> |r.value| == |s| && forall k :: 0 <= k < |s| ==> DecodeRow(s[k]) == Some(r.value[k])
  {
    ReadAll(DecodeRow, s)
  }

  /** The sheet a save leaves: the header, then one line per row. */
  function EncodeSheet(rows: seq<Row>): Sheet {
    [HeaderRow()] + EncodeRows(rows)
  }

  /** `get_all_records`: the rows below the header, or None when the sheet is not a table of intakes. */
  function DecodeSheet(s: Sheet): Option<seq<Row>> {
    if |s| == 0 || s[0] != HeaderRow() then None else DecodeRows(s[1..])
  }

  /** The table at start-up: the sheet's rows, or the empty 24-column table when it cannot be read. */
  function LoadTable(s: Sheet): seq<Row> {
    match DecodeSheet(s)
    case Some(t) => t
    case None => []
  }

  lemma DecodeEncodeRows(rows: seq<Row>)
    ensures DecodeRows(EncodeRows(rows)) == Some(rows)
  {
    var e := EncodeRows(rows);
    forall k | 0 <= k < |e| ensures DecodeRow(e[k]) == Some(rows[k]) {
      DecodeEncodeRow(rows[k]);
    }
    var d := DecodeRows(e);
    assert d.Some?;
    assert d.value == rows by {
      forall k | 0 <= k < |rows| ensures d.value[k] == rows[k] {
        assert DecodeRow(e[k]) == Some(d.value[k]);
      }
    }
  }

  /** A sheet with its converted numbers written as text. */
  function NormalizeSheet(s: Sheet): (n: Sheet)
    ensures |n| == |s| && forall k :: 0 <= k < |s| ==> n[k] == NormalizeRow(s[k])
  {
    seq(|s|, k requires 0 <= k < |s| => NormalizeRow(s[k]))
  }

  lemma EncodeDecodeRows(s: Sheet, rows: seq<Row>)
    requires DecodeRows(s) == Some(rows)
    ensures EncodeRows(rows) == NormalizeSheet(s)
  {
    forall k | 0 <= k < |s| ensures EncodeRows(rows)[k] == NormalizeSheet(s)[k] {
      EncodeDecodeRow(s[k], rows[k]);
    }
  }

  /** Loading what a save wrote gives back the saved table. */
  lemma LoadAfterSave(rows: seq<Row>)
    ensures DecodeSheet(EncodeSheet(rows)) == Some(rows)
    ensures LoadTable(EncodeSheet(rows)) == rows
  {
    var s := EncodeSheet(rows);
    assert s[1..] == EncodeRows(rows);
    DecodeEncodeRows(rows);
  }

  /**
   * Saving what was loaded rewrites the sheet with the same header and rows in
   * the same column order, its converted numbers now written as text, and the
   * rewritten sheet loads as the same table; a sheet without converted numbers
   * is rewritten exactly as it was.
   */
  lemma SaveAfterLoad(s: Sheet)
    requires DecodeSheet(s).Some?
    ensures EncodeSheet(LoadTable(s)) == [s[0]] + NormalizeSheet(s[1..])
    ensures LoadTable(EncodeSheet(LoadTable(s))) == LoadTable(s)
    ensures (forall k :: 0 <= k < |s| ==> HasNoConvertedCells(s[k])) ==> EncodeSheet(LoadTable(s)) == s
  {
    EncodeDecodeRows(s[1..], DecodeSheet(s).value);
    LoadAfterSave(LoadTable(s));
    assert s == [s[0]] + s[1..];
    if forall k :: 0 <= k < |s| ==> HasNoConvertedCells(s[k]) {
      forall k | 0 <= k < |s| - 1 ensures NormalizeSheet(s[1..])[k] == s[1..][k] {
        assert HasNoConvertedCells(s[k + 1]);
      }
    }
  }

  /** A stored NI that the sheet service converted to a number no longer empties the loaded table. */
  lemma ConvertedNiIsLoaded(r: Row, n: int)
    ensures LoadTable([HeaderRow(), EncodeRow(r)[10 := Number(n as real)]]) == [r.(ni := Text(IntText(n)))]
  {
    var c := EncodeRow(r)[10 := Number(n as real)];
    var s := [HeaderRow(), c];
    ConvertedNiIsReadAsText(r, n);
    assert s[1..] == [c] && [c][1..] == [];
    assert DecodeRows([c][1..]) == Some([]);
    assert [r.(ni := Text(IntText(n)))] + [] == [r.(ni := Text(IntText(n)))];
    assert DecodeRows([c]) == Some([r.(ni := Text(IntText(n)))]);
  }

  /** What the browse page shows: the filtered rows and their metrics. */
  datatype BrowseView = BrowseView(rows: seq<Row>, metrics: Metrics)

  /** The worksheet and the table the app holds in memory. */
  class IntakeStore {
    var sheet: Sheet
    var table: seq<Row>

    /** The table is what the sheet loads as. */
    ghost predicate Valid()
      reads this
    {
      table == LoadTable(sheet)
    }

    /** Start-up: the table is loaded from the sheet. */
    constructor Open(persisted: Sheet)
      ensures Valid() && sheet == persisted
    {
      sheet := persisted;
      table := LoadTable(persisted);
    }

    /** `save_to_sheet`: clear the sheet, append the header, then append each row in order. */
    method Save(rows: seq<Row>)
      modifies this`sheet
      ensures sheet == EncodeSheet(rows)
    {
      sheet := [];
      sheet := sheet + [HeaderRow()];
      var i := 0;
      while i < |rows|
        invariant 0 <= i <= |rows|
        invariant sheet == [HeaderRow()] + EncodeRows(rows[..i])
      {
        assert EncodeRows(rows[..i + 1]) == EncodeRows(rows[..i]) + [EncodeRow(rows[i])];
        sheet := sheet + [EncodeRow(rows[i])];
        i := i + 1;
      }
      assert rows[..i] == rows;
    }

    /**
     * The submit button: a rejected submission changes nothing; an accepted
     * one is saved after every earlier row and the page reloads it.
     */
    method Submit(s: Submission, uniqueId: string) returns (outcome: Result<Row, ValidationError>)
      requires Valid()
      modifies this
      ensures Valid()
      ensures outcome == Assemble(s, uniqueId)
      ensures outcome.Failure? ==> sheet == old(sheet) && table == old(table)
      ensures outcome.Success? ==> table == old(table) + [outcome.value] && sheet == EncodeSheet(table)
    {
      outcome := Assemble(s, uniqueId);
      if outcome.Success? {
        var updated := table + [outcome.value];
        Save(updated);
        LoadAfterSave(updated);
        table := LoadTable(sheet);
      }
    }

    /**
     * The browse page: nothing when the table is empty; otherwise the filter
     * chain as app.py runs it, each active criterion re-selecting from the
     * whole table, and the metrics of its result.
     */
    method Browse(supplier: string, status: string, area: string) returns (view: Option<BrowseView>)
      ensures view.None? <==> table == []
      ensures view.Some? ==> view.value.rows == FilterAsWritten(table, supplier, status, area)
      ensures view.Some? ==> view.value.metrics == MetricsOf(view.value.rows)
    {
      if table == [] {
        return None;
      }
      var filtered := table;
      if supplier != All {
        filtered := Select(table, Supplier, supplier);
      }
      if status != All {
        filtered := Select(table, Status, status);
      }
      if area != All {
        filtered := Select(table, Area, area);
      }
      view := Some(BrowseView(filtered, MetricsOf(filtered)));
    }
  }
}
