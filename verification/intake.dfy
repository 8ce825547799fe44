/** The "Cadastro" submit path: validation and assembly of the new record. */
module Intake {
  import opened Wrappers
  import opened Dates
  import opened Records

  /** "Preencha: Nº Processo, NF e NI": a required input is empty. */
  datatype ValidationError = MissingRequiredField

  /** Every form input that is stored lands, as text, in its own column. */
  predicate CarriesSubmission(row: Row, s: Submission, uniqueId: string) {
    row.testPeriod == Text(s.testPeriod) && row.invoiceItemMaterial == Text(s.invoiceItemMaterial) &&
    row.invoice == Text(s.invoice) && row.rr == Text(s.rr) && row.rr2 == Text(s.rr2) &&
    row.accessKey == Text(s.accessKey) && row.supplier == Text(s.supplier) &&
    row.quantity == s.quantity && row.description == Text(s.description) &&
    row.materialType == Text(s.materialType) && row.ni == Text(s.ni) && row.area == Text(s.area) &&
    row.palletMeasure == Text(s.palletMeasure) && row.scheduled == Text(s.scheduled) &&
    row.receiver == Text(s.receiver) && row.status == Text(s.status) &&
    row.observation == Text(s.observation) && row.processNumber == Text(s.processNumber) &&
    row.control == Text(s.control) && row.powerAppsId == Text(uniqueId)
  }

  /**
   * The record built on submit, or the validation error when the process
   * number, the NF or the NI is empty. Only literal emptiness is checked: a
   * value of spaces is accepted. `uniqueId` is the fresh UUID stored as
   * `__PowerAppsId__`.
   */
  function Assemble(s: Submission, uniqueId: string): (r: Result<Row, ValidationError>)
    ensures r.Failure? <==> s.processNumber == "" || s.invoice == "" || s.ni == ""
    ensures r.Success? ==> CarriesSubmission(r.value, s, uniqueId)
    ensures r.Success? ==>
      (r.value.day == s.date.day && r.value.month == s.date.month && r.value.year == s.date.year &&
       r.value.date.Text? && ParseIsoDate(r.value.date.value) == Some(s.date))
  {
    if s.processNumber == "" || s.invoice == "" || s.ni == "" then
      Failure(MissingRequiredField)
    else
      ParseFormatRoundTrip(s.date);
      Success(Row(
        Text(s.testPeriod), Text(s.invoiceItemMaterial), Text(s.invoice), Text(s.rr), Text(s.rr2),
        Text(s.accessKey), Text(s.supplier), s.quantity, Text(s.description), Text(s.materialType),
        Text(s.ni), Text(s.area), Text(s.palletMeasure), Text(s.scheduled), Text(s.receiver),
        Text(s.status), Text(s.observation), Text(s.processNumber), Text(s.control),
        Text(FormatIsoDate(s.date)), s.date.day, s.date.month, s.date.year, Text(uniqueId)))
  }

  /** The "03 - Item NF" input is read but never stored: it cannot change the record. */
  lemma ItemNfIsNotStored(s: Submission, uniqueId: string, itemNf: string)
    ensures Assemble(s.(invoiceItem := itemNf), uniqueId) == Assemble(s, uniqueId)
  {
  }
}
