/**
 * The "Recebimento" table: one row per received-material intake, with the 24
 * columns of app.py in their stored order, and the form that produces a row.
 */
module Records {
  import opened Dates

  /** A cell of a text column: missing (pandas NaN, dropped by `dropna`) or a string. */
  datatype Cell = Null | Text(value: string)

  /** One intake record; each field's comment is its column header. */
  datatype Row = Row(
    testPeriod: Cell,           // teste
    invoiceItemMaterial: Cell,  // 04 - Item Material na NF
    invoice: Cell,              // 02 - Nf
    rr: Cell,                   // 05 - RR
    rr2: Cell,                  // 6 - RR
    accessKey: Cell,            // 06 - Chave de acesso
    supplier: Cell,             // 07 - Fornecedor
    quantity: real,             // 10 - Qtd
    description: Cell,          // 09 - Descrição Material
    materialType: Cell,         // 11 - Tipo
    ni: Cell,                   // 08 - Ni
    area: Cell,                 // 17 - Área
    palletMeasure: Cell,        // 12 - Medida Pallets
    scheduled: Cell,            // 13 - Programado
    receiver: Cell,             // 15 - Recebedor
    status: Cell,               // 14 - Status
    observation: Cell,          // 16 - Observação
    processNumber: Cell,        // 01 - Nº Processo
    control: Cell,              // Controle
    date: Cell,                 // Data
    day: int,                   // Dia
    month: int,                 // Mês
    year: int,                  // Ano
    powerAppsId: Cell)          // __PowerAppsId__

  /** The column headers, in stored order. */
  const Columns: seq<string> := [
    "teste", "04 - Item Material na NF", "02 - Nf", "05 - RR", "6 - RR",
    "06 - Chave de acesso", "07 - Fornecedor", "10 - Qtd", "09 - Descrição Material",
    "11 - Tipo", "08 - Ni", "17 - Área", "12 - Medida Pallets", "13 - Programado",
    "15 - Recebedor", "14 - Status", "16 - Observação", "01 - Nº Processo",
    "Controle", "Data", "Dia", "Mês", "Ano", "__PowerAppsId__"]

  /** The columns the browse and label pages select on. */
  datatype Field = Supplier | Status | Area | Ni

  function FieldOf(r: Row, f: Field): Cell {
    match f
    case Supplier => r.supplier
    case Status => r.status
    case Area => r.area
    case Ni => r.ni
  }

  /** One column of a table, top to bottom: `df[column]`. */
  function Column(rows: seq<Row>, f: Field): (c: seq<Cell>)
    ensures |c| == |rows| && forall i :: 0 <= i < |rows| ==> c[i] == FieldOf(rows[i], f)
  {
    seq(|rows|, i requires 0 <= i < |rows| => FieldOf(rows[i], f))
  }

  /**
   * The inputs of the "Cadastro" form when it is submitted. `description`
   * is the edited value of the description box, whose initial value is the
   * catalog description of `ni`; `control` is the edited value of the
   * "Controle" box, initially the first 8 characters of a random UUID.
   */
  datatype Submission = Submission(
    date: CalendarDate,
    processNumber: string,
    invoice: string,
    invoiceItem: string,
    invoiceItemMaterial: string,
    rr: string,
    rr2: string,
    accessKey: string,
    supplier: string,
    ni: string,
    quantity: real,
    description: string,
    materialType: string,
    palletMeasure: string,
    scheduled: string,
    receiver: string,
    status: string,
    area: string,
    observation: string,
    control: string,
    testPeriod: string)
}
