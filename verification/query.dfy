/**
 * The "Visualizar Dados" page: the filter chain over the table and the four
 * metrics shown under it.
 */
module Query {
  import opened Wrappers
  import opened Seqs
  import opened Records
  import opened Choices

  /** The sentinel of the filter dropdowns: no criterion. */
  const All: string := "Todos"

  predicate Matches(r: Row, f: Field, v: string) {
    FieldOf(r, f) == Text(v)
  }

  /** `table[table[column] == v]`: the rows whose cell equals `v`, in table order. */
  function Select(table: seq<Row>, f: Field, v: string): (r: seq<Row>)
    ensures IsSubsequence(r, table)
    ensures forall x :: multiset(r)[x] == if Matches(x, f, v) then multiset(table)[x] else 0
  {
    Keep(table, (x: Row) => Matches(x, f, v))
  }

  /** The criterion the chain ends up applying: the last of supplier, status, area that is not "Todos". */
  function LastActiveCriterion(supplier: string, status: string, area: string): Option<(Field, string)> {
    if area != All then Some((Area, area))
    else if status != All then Some((Status, status))
    else if supplier != All then Some((Supplier, supplier))
    else None
  }

  /**
   * The filter chain as app.py writes it: every active criterion re-selects
   * from the whole table, so only the last active one has any effect.
   */
  function FilterAsWritten(table: seq<Row>, supplier: string, status: string, area: string): (r: seq<Row>)
    ensures IsSubsequence(r, table)
    ensures supplier == All && status == All && area == All ==> r == table
    ensures area != All ==>
      forall x :: multiset(r)[x] == if Matches(x, Area, area) then multiset(table)[x] else 0
    ensures area == All && status != All ==>
      forall x :: multiset(r)[x] == if Matches(x, Status, status) then multiset(table)[x] else 0
    ensures area == All && status == All && supplier != All ==>
      forall x :: multiset(r)[x] == if Matches(x, Supplier, supplier) then multiset(table)[x] else 0
  {
    match LastActiveCriterion(supplier, status, area)
    case None =>
      assert IsSubsequence(table, table) by { SubsequenceReflexive(table); }
      table
    case Some((f, v)) => Select(table, f, v)
  }

  lemma {:induction false} SubsequenceReflexive(s: seq<Row>)
    ensures IsSubsequence(s, s)
  {
    if s != [] {
      SubsequenceReflexive(s[1..]);
    }
  }

  /** A row passes every active criterion. */
  predicate Accepts(x: Row, supplier: string, status: string, area: string) {
    (supplier == All || Matches(x, Supplier, supplier)) &&
    (status == All || Matches(x, Status, status)) &&
    (area == All || Matches(x, Area, area))
  }

  /** The filter as evidently intended: the criteria combined with AND. */
  function FilterConjunctive(table: seq<Row>, supplier: string, status: string, area: string): (r: seq<Row>)
    ensures IsSubsequence(r, table)
    ensures forall x :: multiset(r)[x] == if Accepts(x, supplier, status, area) then multiset(table)[x] else 0
  {
    Keep(table, (x: Row) => Accepts(x, supplier, status, area))
  }

  /** With at most one active criterion the chain as written and the conjunctive filter agree. */
  lemma FilterAgreesWithOneCriterion(table: seq<Row>, supplier: string, status: string, area: string)
    requires (if supplier != All then 1 else 0) + (if status != All then 1 else 0) + (if area != All then 1 else 0) <= 1
    ensures FilterAsWritten(table, supplier, status, area) == FilterConjunctive(table, supplier, status, area)
  {
    var accepts := (x: Row) => Accepts(x, supplier, status, area);
    match LastActiveCriterion(supplier, status, area)
    case None =>
      KeepCongruent(table, (x: Row) => true, accepts);
      KeepAll(table);
    case Some((f, v)) =>
      KeepCongruent(table, (x: Row) => Matches(x, f, v), accepts);
  }

  lemma {:induction false} KeepAll(s: seq<Row>)
    ensures Keep(s, (x: Row) => true) == s
  {
    if s != [] {
      KeepAll(s[1..]);
      assert s == [s[0]] + s[1..];
    }
  }

  /** A row with the given supplier and status and nothing else filled in. */
  function SampleRow(supplier: string, status: string): Row {
    Row(Null, Null, Null, Null, Null, Null, Text(supplier), 1.0, Null, Null, Null, Null,
        Null, Null, Null, Text(status), Null, Null, Null, Null, 1, 1, 2024, Null)
  }

  /**
   * The chain as written drops the supplier criterion once a status is also
   * chosen: with supplier "Acme" and status "Recebido" it returns Beta's
   * received row, which the intended AND filter excludes.
   */
  lemma FilterAsWrittenDropsEarlierCriteria()
    ensures var table := [SampleRow("Acme", "Pendente"), SampleRow("Beta", "Recebido")];
      FilterAsWritten(table, "Acme", "Recebido", All) == [SampleRow("Beta", "Recebido")] &&
      FilterConjunctive(table, "Acme", "Recebido", All) == []
  {
    var a, b := SampleRow("Acme", "Pendente"), SampleRow("Beta", "Recebido");
    var table := [a, b];
    assert table[1..] == [b] && table[1..][1..] == [];
  }

  /** The four metrics under the table. */
  datatype Metrics = Metrics(total: nat, quantitySum: real, suppliers: nat, areas: nat)

  /** `df['10 - Qtd'].sum()`: 0 for no rows. */
  function SumQuantity(rows: seq<Row>): real {
    if rows == [] then 0.0 else SumQuantity(rows[..|rows| - 1]) + rows[|rows| - 1].quantity
  }

  lemma {:induction false} SumQuantityNonNegative(rows: seq<Row>)
    ensures (forall i :: 0 <= i < |rows| ==> rows[i].quantity >= 0.0) ==> SumQuantity(rows) >= 0.0
  {
    if rows != [] {
      SumQuantityNonNegative(rows[..|rows| - 1]);
    }
  }

  /** Total, Qtd Total, Fornecedores and Áreas of a set of rows; `nunique` skips nulls only. */
  function MetricsOf(rows: seq<Row>): (m: Metrics)
    ensures m.total == |rows|
    ensures m.suppliers == |DistinctNonNull(Column(rows, Supplier))| <= m.total
    ensures m.areas == |DistinctNonNull(Column(rows, Area))| <= m.total
    ensures rows == [] ==> m == Metrics(0, 0.0, 0, 0)
    ensures (forall i :: 0 <= i < |rows| ==> rows[i].quantity >= 0.0) ==> m.quantitySum >= 0.0
  {
    DistinctCountIsChoiceCount(Column(rows, Supplier));
    DistinctCountIsChoiceCount(Column(rows, Area));
    SumQuantityNonNegative(rows);
    Metrics(|rows|, SumQuantity(rows),
            |NonNullValues(Column(rows, Supplier))|, |NonNullValues(Column(rows, Area))|)
  }

  /** Appending one intake adds one to Total and its quantity to Qtd Total. */
  lemma MetricsAfterAppend(rows: seq<Row>, x: Row)
    ensures MetricsOf(rows + [x]).total == MetricsOf(rows).total + 1
    ensures MetricsOf(rows + [x]).quantitySum == MetricsOf(rows).quantitySum + x.quantity
  {
    assert (rows + [x])[..|rows|] == rows;
  }
}
