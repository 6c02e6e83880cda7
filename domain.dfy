// The normalised record and diagnostic shapes shared by every extractor
// (src/core/domain/types.ts). Money is held as integer cents.

module Domain {

  datatype Option<+T> = None | Some(value: T)

  /** Where a row came from: the bank file or the municipal payroll report. */
  datatype Source = Banco | Prefeitura

  /** How sure an extractor is about one row (or about a column assignment). */
  datatype Confidence = High | Medium | Low

  datatype Severity = Info | Warn | Error

  /** Optional metadata of a row: competence "MM/YYYY", event code, confidence,
      and, on the free-text path, the worker's name and CPF. */
  datatype Meta = Meta(
    competencia: Option<string>,
    evento: Option<string>,
    confidence: Option<Confidence>,
    nome: Option<string>,
    cpf: Option<string>)

  /** Provenance of a row: its line number, its sheet (spreadsheets) and/or
      the raw text it came from. */
  datatype RawRef = RawRef(lineNo: Option<nat>, sheet: Option<string>, raw: Option<string>)

  /** One normalised row. `cents` is the amount in centavos (the source keeps
      reais as a number with two decimals). */
  datatype Row = Row(
    source: Source,
    matricula: string,
    cents: int,
    nome: Option<string>,
    cpf: Option<string>,
    meta: Meta,
    rawRef: RawRef)

  /** One diagnostic: severity, stable code, and the numeric details that
      the extractors report (counts, line numbers). The human-readable
      message is not modelled. */
  datatype Diag = Diag(severity: Severity, code: string, details: map<string, int>)

  function Codes(ds: seq<Diag>): (r: seq<string>)
    ensures |r| == |ds|
    ensures forall i :: 0 <= i < |ds| ==> r[i] == ds[i].code
  {
    if ds == [] then [] else Codes(ds[..|ds| - 1]) + [ds[|ds| - 1].code]
  }
}
