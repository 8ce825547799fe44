# Suzano material-intake register — a Dafny model

This project models the logic of the Streamlit app `app.py` of the Suzano
receiving system ("Sistema de Recebimento"). Operators record one intake per
received material on the "Cadastro" form. The "Recebimento" worksheet holds
the intakes. The "Visualizar Dados" page filters them and shows four metrics.
The "Gerar Rótulo" page builds a label for a material identification code
(NI), joined with the materials catalog ("Planilha3") and the compatibility
catalog ("Compatibilidade").

Modules, one per part of the program:

- `Records` (records.dfy): the 24-column intake row (`Row`), its column
  headers in stored order, and the form inputs (`Submission`).
- `Catalog` (catalog.dfy): the two lookups, `get_material_description` and
  `get_compatibility_info`.
- `Dates` (dates.dfy): the intake date and its stored text. The text is an
  ISO 8601 calendar date in extended format (YYYY-MM-DD, section 4.1.2.2 of
  ISO 8601:2004), with a parser and round-trip lemmas in both directions.
- `Intake` (intake.dfy): validation of the three required inputs and
  assembly of the new record.
- `Store` (store.dfy): the worksheet as a sequence of rows of cells, as
  `get_all_records` reads them. A stored cell that is a whole number is read,
  in a text column, as the number's decimal text. Text written by a save is
  read back as the same text; the conversion of numeric-looking text on
  reload is not modelled (see "## Left out"). Loading reads the table, or yields an empty one when
  the sheet cannot be read. Saving clears the sheet, writes the header, then appends each row in
  a loop. The class `IntakeStore` holds the worksheet and the in-memory table.
  Its `Submit` saves the table with the new record appended and then reloads
  it, as the page rerun does. Its `Browse` runs the filter chain.
- `Query` (query.dfy): the row selection, the filter chain as written, the
  intended conjunctive filter, and the metrics.
- `Choices` (choices.dfy): the dropdown option lists and the default
  locations.
- `Label` (label.dfy): the label's fields.
- `Seqs`, `Wrappers`: generic sequence facts, `Option` and `Result`.

Where the code departs from what the pages evidently intend, the model
follows the code:

- The filter criteria do not combine with AND (see "## Findings").
- The "Fornecedores" and "Áreas" metrics use `nunique`. It skips only
  missing (NaN) cells, so an empty string counts as a value.
- Validation checks only literal emptiness. A process number of spaces is
  accepted.

Inputs the program takes from outside are parameters. These are the random
`__PowerAppsId__` (`uniqueId`) and the contents of the worksheet and catalogs.
The "Controle" token is a form input whose initial value is random. The
description input is pre-filled with `LookupDescription(ni, materials)`, and
`Submission.description` is its value after any edit.

## Model

| member | source | states |
|---|---|---|
| `Catalog.LookupDescription` | app.py:114-119 | "" when the NI is empty, the catalog is empty or no key matches; otherwise the description of the first row whose key equals the NI |
| `Catalog.LookupIncompatibility` | app.py:121-126 | "" when the NI is empty, the table is empty, the incompatibility column is absent or no NI matches; otherwise the first matching row's incompatibility text |
| `Catalog.LookupDescriptionIgnoresLaterRows` | app.py:116-118 | once a key occurs, rows appended after it never change its lookup (first match wins) |
| `Dates.FormatIsoDate` | app.py:203 | the stored date text has ten characters, dashes at positions 4 and 7 and digits elsewhere |
| `Dates.ParseFormatRoundTrip` | app.py:203 | parsing the stored text of any valid date gives that date back |
| `Dates.FormatParseRoundTrip` | app.py:203 | a string that parses to a date is exactly that date's formatting, so the text form is canonical |
| `Intake.Assemble` | app.py:179-208 | rejected exactly when the process number, NF or NI is empty; otherwise every stored input lands in its column, the day, month and year are the date's own, and the `Data` text parses back to the date |
| `Intake.ItemNfIsNotStored` | app.py:152 | the "03 - Item NF" input cannot change the assembled record |
| `Store.DecodeEncodeRow` | app.py:107-108 | a row written by `append_row` reads back as the same row |
| `Store.EncodeDecodeRow` | app.py:66-67 | a stored line that reads as a row is what writing that row produces, once its converted whole numbers are written as text; a line without converted numbers is exactly that |
| `Store.NatText` | app.py:66-67 | the text a converted whole number is held as: decimal digits with no leading zero whose value is the number |
| `Store.IntTextInjective` | app.py:66-67 | different numbers have different texts, so reading converted cells as text merges no two values |
| `Store.ConvertedNiIsReadAsText` | app.py:66-67 | a stored line whose NI cell the sheet service turned into a whole number reads as the same row with the NI as that number's text |
| `Store.ConvertedNiIsLoaded` | app.py:63-70 | a sheet holding such a line loads as that one row, not as an empty table |
| `Store.DecodeRows` | app.py:66-67 | the lines below the header read as a table exactly when every line reads as a row, and then the k-th row is the k-th line read |
| `Store.LoadAfterSave` | app.py:102-108 | loading the sheet a save wrote yields the saved table |
| `Store.SaveAfterLoad` | app.py:63-70 | saving the table loaded from a readable sheet rewrites it with the same header and rows in the same column order, converted numbers as their text, and the rewritten sheet loads as the same table; a sheet without converted numbers is rewritten unchanged |
| `Store.IntakeStore.Open` | app.py:88-99 | at start-up the table is what the sheet loads as, and empty when the sheet cannot be read |
| `Store.IntakeStore.Save` | app.py:102-108 | after the clear and the loop of appends, the sheet is the header followed by one line per row, in order |
| `Store.IntakeStore.Submit` | app.py:179-212 | a rejected submission leaves the sheet and the table unchanged; an accepted one makes the table the old table with the record appended, saved to the sheet; the table always equals what the sheet loads as |
| `Store.IntakeStore.Browse` | app.py:215-237 | nothing on an empty table; otherwise the rows of the filter chain as written and the metrics of those rows |
| `Query.Select` | app.py:227 | the selected rows keep table order, and each row occurs exactly as often as in the table when its column equals the value, otherwise not at all |
| `Query.FilterAsWritten` | app.py:225-231 | all "Todos" gives the whole table in order; otherwise exactly the rows matching the last active criterion (area, else status, else supplier), in table order |
| `Query.FilterAsWrittenDropsEarlierCriteria` | app.py:226-229 | supplier "Acme" and status "Recebido" over an Acme/Pendente row and a Beta/Recebido row return the Beta row, which an AND filter excludes |
| `Query.FilterConjunctive` | app.py:225-231 | exactly the rows that pass every active criterion, in table order |
| `Query.FilterAgreesWithOneCriterion` | app.py:225-231 | with at most one active criterion the chain as written equals the conjunctive filter |
| `Query.MetricsOf` | app.py:234-237 | Total is the row count; the supplier and area counts equal the number of distinct non-null values and never exceed Total; an empty set gives all zeros; Qtd Total is non-negative when every quantity is |
| `Query.SumQuantityNonNegative` | app.py:235 | Qtd Total is non-negative when every quantity is (the form's minimum is 0) |
| `Query.MetricsAfterAppend` | app.py:234-235 | an appended intake adds one to Total and its quantity to Qtd Total |
| `Choices.DistinctNonNull` | app.py:220 | no value twice, and a string is listed exactly when some cell of the column holds it |
| `Choices.DistinctNonNullInFirstAppearanceOrder` | app.py:220 | listed values keep the order of their first appearance in the column |
| `Choices.DistinctCountIsChoiceCount` | app.py:236-237 | `nunique` of a column equals its number of dropdown choices after the sentinel, and is at most the column length |
| `Choices.Choices` | app.py:220-224 | the sentinel first; after it no value twice, a string listed exactly when some non-null cell holds it, and any two listed values in the order of their first appearance in the column |
| `Choices.FilterChoices` | app.py:220-224 | the dropdown of that column with "Todos" first, hence distinct values in first-appearance order, listing exactly the strings some row holds in that column |
| `Choices.NiChoices` | app.py:244 | the dropdown of the NI column with "" first, hence distinct NIs in first-appearance order, listing exactly the NIs some row holds |
| `Choices.LocationsOrDefault` | app.py:81-83 | an empty locations table becomes exactly "Área 1", "Área 2", "Área 3", "Estoque A", "Estoque B"; a non-empty one is kept |
| `Choices.AreaChoicesFromLocations` | app.py:172 | after the default is applied the three-area fallback is never used; with no locations the area choices are "" and the five defaults |
| `Label.LabelFor` | app.py:245-259 | no label for "" or an NI that no row holds; otherwise built from the last row with that NI, the catalog description or else the row's own, and the incompatibility line present exactly when the compatibility lookup is non-empty |
| `Label.ChosenNiHasLabel` | app.py:244-246 | every NI the dropdown offers has a label |
| `Label.LabelShowsLatestIntake` | app.py:246 | after an intake is appended, the label for its NI shows that intake's supplier, quantity, area and date |

## Left out

- Page configuration, CSS, widgets, the sidebar, and the success, warning and error messages are presentation and are not modelled. The label is modelled as the record of its values, not as HTML. The print button is also presentation.
- The Google Sheets connection, OAuth credentials and worksheet lookup are foreign network calls and are not modelled. Loading is modelled as reading the sheet's cells, or an empty table when they do not form the intake table. I/O failures during a save are not modelled, including a sheet left half-written.
- The two UUIDs are random. The "Controle" default is a form input and `__PowerAppsId__` is the `uniqueId` parameter.
- Quantities are `real`. Floating-point rounding and missing (NaN) quantities are not modelled.
- The sheet service converts numeric-looking text to numbers whenever it reads the sheet. The model applies this only to a cell already stored as a whole number, which a text column holds as its decimal text, where pandas holds the number itself. The two compare alike in the lookups and filters, except for an NI of 0, which is falsy in the label page's `if ni:`.
- `Store.DecodeEncodeRow`: text written by a save reads back unchanged in the model. In the program the reload converts numeric-looking text: leading zeros and signs are lost ("000123" reads back as 123), and decimals and exponents become floats ("1.20" reads back as 1.2). A text column holding a number with a fractional part, or a numeric column holding text or a blank, is not read in the model at all: such a sheet loads as an empty table, and a submission then overwrites its rows, where the program reads it.
- `Store.LoadAfterSave`: promises that a saved table loads back unchanged. In the program that holds only for rows none of whose text cells look numeric; for the others the reloaded table holds the converted values described above.
- `Store.IntakeStore.Submit`: promises that after the rerun the table is the old table with the new record appended. In the program the rerun reloads the record through the same conversion, so a record with numeric-looking text ("000123" as its NF) is held in its converted form, and one whose text the model would read as a fractional number leaves the model's sheet unreadable.
- `Store.SaveAfterLoad`: a save in the program writes a converted number back as a number; the model writes its text. The lemma promises the model's rewritten sheet loads as the same table. In the program a converted number with more digits than a double holds (a 44-digit "Chave de acesso") is stored as a double by that save and reads back changed; number precision is not modelled.
- pandas dtype coercion is not modelled. Catalog keys are the string form of their cells. A NaN description or incompatibility cell is not modelled.
- A materials sheet with fewer than two columns, a compatibility sheet without an "NI" column, or a non-empty locations sheet without an "Onde" column makes pandas raise (the last at app.py:172, on the "Cadastro" page). The model assumes these columns exist.
- `@st.cache_resource` caching and concurrent users (last writer wins) are not modelled.
- `Store.IntakeStore.Open`: the model reads the intake sheet only when its header is the 24 columns in the order a save writes them. The program reads columns by name, so it also reads a sheet whose columns are reordered, and a save keeps that order. A sheet with an extra column is read too, and the new record leaves that column missing (NaN). The model loads both kinds as an empty table, so its `Submit` replaces their rows with the one new record.
- `Dates.FormatIsoDate`: always writes a four-digit year. The C library's `%Y` may not pad years below 1000. The date widget only offers dates near today.
- `Intake.Assemble`: does not restrict status, area and test period to their dropdown options. The widgets do that, not the code.
- `Label.LabelFor`: returns None for an NI that no row holds, where pandas raises IndexError. The dropdown never offers such an NI (`Label.ChosenNiHasLabel`).

## Findings

| source | as written | input that shows it | evidently intended | confidence | as-written member | corrected member |
|---|---|---|---|---|---|---|
| app.py:226-231 | each active filter re-selects from the whole table (`df_recebimento[...]`), so only the last active criterion has any effect | supplier "Acme", status "Recebido", area "Todos" over an Acme/Pendente row and a Beta/Recebido row: the page shows the Beta row | the criteria narrow `df_filtrado` in turn, so they combine with AND | high; not executed | `Query.FilterAsWritten`, `Query.FilterAsWrittenDropsEarlierCriteria` | `Query.FilterConjunctive` |

`Store.IntakeStore.Browse` keeps the behaviour as written, because that is what the page shows.
