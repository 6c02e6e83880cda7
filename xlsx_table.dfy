// The spreadsheet extractor (src/core/prefeitura/connectors/xlsx/xlsxTableV1.ts)
// over a grid that has already been read: the early exits, the column
// detection, one forward pass over the grid rows that keeps the event in
// force, and the verdict on the extraction. Reading the workbook, choosing
// the sheet and finding the competence are not part of this model; the
// sheet count, the competence finder and the JSON rendering of a row are
// parameters.

module XlsxTable {
  import opened Domain
  import opened Text
  import opened Patterns
  import opened Sequences
  import opened SheetColumns

  /** The verdict on an extraction. */
  datatype Extracao = Completa | Parcial | Falhou

  /** What `extractFromXlsx` returns (its `formato` is always
      "xlsx_table_v1" and is not modelled). */
  datatype XlsxResult = XlsxResult(
    rows: seq<Row>,
    diagnostics: seq<Diag>,
    competencia: Option<string>,
    extracao: Extracao)

  /** The helpers whose code is not part of this model: the cell readers,
      `extractCompetenciaFromCells` and `JSON.stringify` of a row. */
  datatype Helpers = Helpers(
    parsers: CellParsers,
    competence: seq<seq<Cell>> -> Option<string>,
    json: seq<Cell> -> string)

  /** `row[col]`: the cell, or `undefined` past the end of the row. */
  function CellAt(row: seq<Cell>, col: nat): Cell {
    if col < |row| then row[col] else Undefined
  }

  /** A competence that JavaScript treats as false: absent or empty. */
  predicate Missing(c: Option<string>) {
    c.None? || c.value == ""
  }

  // ---------------------------------------------------------------------------
  // The fields of one grid row

  /** The event a row announces: its event-column cell, when there is an
      event column and the cell is not null, rendered and trimmed, when it
      is one to three digits, padded to three. */
  function RowEvento(d: Detection, row: seq<Cell>): (e: Option<string>)
    ensures e.Some? ==> |e.value| == 3 && AllDigits(e.value)
  {
    if d.eventoCol.None? || CellAt(row, d.eventoCol.value).Null? then None
    else
      var t := Trim(Render(CellAt(row, d.eventoCol.value)));
      if ShortCode(t) then
        var e := PadStart3(t);
        assert forall k :: |e| - |t| <= k < |e| ==> e[k] == e[|e| - |t|..][k - (|e| - |t|)];
        Some(e)
      else None
  }

  /** The name of a row as the source computes it: any cell but null is
      rendered, so a cell missing from a short row reads "undefined". */
  function RowNomeAsWritten(d: Detection, row: seq<Cell>): Option<string> {
    if d.nomeCol.None? || CellAt(row, d.nomeCol.value).Null? then None
    else
      var t := Trim(Render(CellAt(row, d.nomeCol.value)));
      if |t| >= 3 && NameText(t) then Some(t) else None
  }

  /** The name of a row: its name-column cell, when there is a name column
      and the cell is present, trimmed, when it is at least three letters
      or spaces. A missing cell is treated like null. */
  function RowNome(d: Detection, row: seq<Cell>): (n: Option<string>)
    ensures n.Some? ==> |n.value| >= 3 && NameText(n.value)
    ensures n.Some? ==> d.nomeCol.Some? && d.nomeCol.value < |row|
  {
    if d.nomeCol.None? then None
    else
      var c := CellAt(row, d.nomeCol.value);
      if c.Null? || c.Undefined? then None
      else
        var t := Trim(Render(c));
        if |t| >= 3 && NameText(t) then Some(t) else None
  }

  /** On a cell that is there, the two readings agree. */
  lemma RowNomeAgrees(d: Detection, row: seq<Cell>)
    requires d.nomeCol.Some? ==> !CellAt(row, d.nomeCol.value).Undefined?
    ensures RowNome(d, row) == RowNomeAsWritten(d, row)
  {
  }

  /** A row too short to have the name column gets the name "undefined"
      as written, and no name once corrected. */
  lemma RowNomeUndefined()
    ensures var d := Detection(0, 1, None, Some(2), None, High);
      var row := [Num("123"), Num("4,00")];
      RowNomeAsWritten(d, row) == Some("undefined") && RowNome(d, row) == None
  {
    var s := "undefined";
    assert !IsSpace(s[0]) && !IsSpace(s[|s| - 1]);
    assert Trim(s) == s;
    assert forall i :: 0 <= i < |s| ==> 'a' <= s[i] <= 'z';
  }

  /** `s.replace(/\D/g, '')`. */
  function DigitsOnly(s: string): (r: string)
    ensures AllDigits(r) && |r| <= |s|
  {
    if s == [] then []
    else DigitsOnly(s[..|s| - 1]) + (if IsDigit(s[|s| - 1]) then [s[|s| - 1]] else [])
  }

  /** Keeping the digits of a string of digits changes nothing. */
  lemma {:induction false} DigitsOnlyOfDigits(s: string)
    requires AllDigits(s)
    ensures DigitsOnly(s) == s
  {
    if s != [] {
      DigitsOnlyOfDigits(s[..|s| - 1]);
      assert s[..|s| - 1] + [s[|s| - 1]] == s;
    }
  }

  /** Keeping the digits distributes over concatenation. */
  lemma {:induction false} DigitsOnlyAppend(a: string, b: string)
    ensures DigitsOnly(a + b) == DigitsOnly(a) + DigitsOnly(b)
  {
    if b != [] {
      DigitsOnlyAppend(a, b[..|b| - 1]);
      assert (a + b)[..|a + b| - 1] == a + b[..|b| - 1];
    } else {
      assert a + b == a;
    }
  }

  /** The 11 digits of a CPF written ddd.ddd.ddd-dd. */
  function FormatCpf(ds: string): (r: string)
    requires |ds| == 11
    ensures |r| == 14
  {
    ds[..3] + "." + ds[3..6] + "." + ds[6..9] + "-" + ds[9..]
  }

  /** A formatted CPF has the CPF shape, and its digits are the ones it was
      made from. */
  lemma FormatCpfRoundTrip(ds: string)
    requires |ds| == 11 && AllDigits(ds)
    ensures CpfAt(FormatCpf(ds), 0)
    ensures DigitsOnly(FormatCpf(ds)) == ds
  {
    FormatCpfShape(ds);
    FormatCpfDigits(ds);
  }

  lemma FormatCpfShape(ds: string)
    requires |ds| == 11 && AllDigits(ds)
    ensures CpfAt(FormatCpf(ds), 0)
  {
    var f := FormatCpf(ds);
    assert forall k :: 0 <= k < 3 ==> f[k] == ds[k];
    assert forall k :: 4 <= k < 7 ==> f[k] == ds[k - 1];
    assert forall k :: 8 <= k < 11 ==> f[k] == ds[k - 2];
    assert forall k :: 12 <= k < 14 ==> f[k] == ds[k - 3];
  }

  lemma FormatCpfDigits(ds: string)
    requires |ds| == 11 && AllDigits(ds)
    ensures DigitsOnly(FormatCpf(ds)) == ds
  {
    var a, b, c, e := ds[..3], ds[3..6], ds[6..9], ds[9..];
    DigitsOnlyOfDigits(a);
    DigitsOnlyOfDigits(b);
    DigitsOnlyOfDigits(c);
    DigitsOnlyOfDigits(e);
    var s1 := a + "." + b;
    SeparatorDropped(a, '.', b);
    var s2 := s1 + "." + c;
    SeparatorDropped(s1, '.', c);
    var s3 := s2 + "-" + e;
    SeparatorDropped(s2, '-', e);
    assert s3 == FormatCpf(ds);
    assert a + b + c + e == ds;
  }

  /** A non-digit between two strings contributes nothing to their digits. */
  lemma SeparatorDropped(x: string, sep: char, y: string)
    requires !IsDigit(sep)
    ensures DigitsOnly(x + [sep] + y) == DigitsOnly(x) + DigitsOnly(y)
  {
    assert DigitsOnly(x + [sep]) == DigitsOnly(x) by {
      assert (x + [sep])[..|x|] == x;
    }
    DigitsOnlyAppend(x + [sep], y);
  }

  /** The CPF of a row: its CPF-column cell, when there is a CPF column and
      the cell is not null, reduced to its digits, when there are exactly
      11 of them, formatted. */
  function RowCpf(d: Detection, row: seq<Cell>): (c: Option<string>)
    ensures c.Some? ==> d.cpfCol.Some? && |c.value| == 14
  {
    if d.cpfCol.None? || CellAt(row, d.cpfCol.value).Null? then None
    else
      var ds := DigitsOnly(Render(CellAt(row, d.cpfCol.value)));
      if |ds| == 11 then Some(FormatCpf(ds)) else None
  }

  /** A row's CPF has the CPF shape and carries the digits of its cell. */
  lemma RowCpfShape(d: Detection, row: seq<Cell>)
    requires RowCpf(d, row).Some?
    ensures CpfAt(RowCpf(d, row).value, 0)
    ensures DigitsOnly(RowCpf(d, row).value) == DigitsOnly(Render(CellAt(row, d.cpfCol.value)))
  {
    FormatCpfRoundTrip(DigitsOnly(Render(CellAt(row, d.cpfCol.value))));
  }

  /** `JSON.stringify(row).slice(0, 500)`. */
  function Raw(h: Helpers, row: seq<Cell>): (r: string)
    ensures |r| <= 500 && |r| <= |h.json(row)|
    ensures r == h.json(row)[..|r|]
  {
    var j := h.json(row);
    if |j| <= 500 then j else j[..500]
  }

  // ---------------------------------------------------------------------------
  // The pass over the rows

  /** The variables of the loop: the event in force, the discard counter
      and the rows. */
  datatype RowScan = RowScan(evento: Option<string>, discarded: nat, rows: seq<Row>)

  const Begin: RowScan := RowScan(None, 0, [])

  /** The row a kept grid row yields. */
  function MakeRow(h: Helpers, d: Detection, competencia: Option<string>, evento: Option<string>,
                   row: seq<Cell>, matricula: string, cents: int): Row
  {
    Row(Prefeitura, matricula, cents, RowNome(d, row), RowCpf(d, row),
      Meta(competencia, evento, Some(d.confidence), None, None),
      RawRef(None, None, Some(Raw(h, row))))
  }

  /** One pass of the loop: the event first, then the matricula, then the
      amount; a row whose matricula is absent or empty, or whose amount
      does not read, is discarded. */
  function Step(h: Helpers, d: Detection, competencia: Option<string>, st: RowScan, row: seq<Cell>): RowScan {
    Take(h, d, competencia, WithEvento(d, st, row), row)
  }

  /** The scan once the row's event cell, if it holds a code, is remembered. */
  function WithEvento(d: Detection, st: RowScan, row: seq<Cell>): RowScan {
    var ev := RowEvento(d, row);
    if ev.Some? then st.(evento := ev) else st
  }

  /** The scan once the row is kept or discarded. */
  function Take(h: Helpers, d: Detection, competencia: Option<string>, st: RowScan, row: seq<Cell>): RowScan {
    var m := h.parsers.matricula(CellAt(row, d.matriculaCol));
    if m.None? || m.value == "" then st.(discarded := st.discarded + 1)
    else
      var v := h.parsers.monetary(CellAt(row, d.valorCol));
      if v.None? then st.(discarded := st.discarded + 1)
      else st.(rows := st.rows + [MakeRow(h, d, competencia, st.evento, row, m.value, v.value)])
  }


  /** The state after the first `n` grid rows. */
  function Scan(h: Helpers, d: Detection, competencia: Option<string>, data: seq<seq<Cell>>, n: nat): RowScan
    requires n <= |data|
  {
    if n == 0 then Begin else Step(h, d, competencia, Scan(h, d, competencia, data, n - 1), data[n - 1])
  }

  // ---------------------------------------------------------------------------
  // The verdict and the diagnostics

  /** A diagnostic that marks the extraction as failed. */
  predicate HasError(ds: seq<Diag>) {
    exists i :: 0 <= i < |ds| && ds[i].severity == Error
      && (ds[i].code == "XLSX_ZERO_ROWS" || ds[i].code == "XLSX_READ_ERROR")
  }

  /** `determineExtracao`. The ratio test `extractedRows / totalRows < 0.5`
      is compared exactly, as `2 * extractedRows < totalRows`. */
  function DetermineExtracao(extractedRows: nat, totalRows: nat, confidence: Confidence,
                             competencia: Option<string>, ds: seq<Diag>): (e: Extracao)
    ensures e == Falhou <==> HasError(ds) || extractedRows == 0
    ensures e == Completa ==> 2 * extractedRows >= totalRows && confidence != Low && !Missing(competencia)
    ensures e == Parcial ==> 2 * extractedRows < totalRows || confidence == Low || Missing(competencia)
  {
    if HasError(ds) || extractedRows == 0 then Falhou
    else if 2 * extractedRows < totalRows || confidence == Low || Missing(competencia) then Parcial
    else Completa
  }

  function SheetSelected(totalSheets: nat): Diag {
    Diag(Info, "XLSX_SHEET_SELECTED", map["totalSheets" := totalSheets])
  }

  const ZeroRows: Diag := Diag(Error, "XLSX_ZERO_ROWS", map[])

  /** The column indices of a detection, the optional ones when present
      (the confidence, a string, is not kept in the numeric details). */
  function ColumnsDetected(d: Detection): Diag {
    var m := map["matriculaCol" := d.matriculaCol, "valorCol" := d.valorCol];
    var m := if d.eventoCol.Some? then m["eventoCol" := d.eventoCol.value] else m;
    var m := if d.nomeCol.Some? then m["nomeCol" := d.nomeCol.value] else m;
    var m := if d.cpfCol.Some? then m["cpfCol" := d.cpfCol.value] else m;
    Diag(Info, "XLSX_COLUMNS_DETECTED", m)
  }

  /** The diagnostics once a detection is made: the columns, and the
      warning for a missing competence. */
  function Opening(totalSheets: nat, d: Detection, competencia: Option<string>): seq<Diag> {
    [SheetSelected(totalSheets), ColumnsDetected(d)]
    + (if Missing(competencia) then [Diag(Warn, "XLSX_COMPETENCIA_NOT_FOUND", map[])] else [])
  }

  /** The result once the pass is done: the event warning, then either the
      failure with no rows or the summary, the rows and the verdict. */
  function Finish(ds: seq<Diag>, total: nat, st: RowScan, competencia: Option<string>,
                  confidence: Confidence): XlsxResult
  {
    var ds := ds + (if st.evento.None? && |st.rows| > 0 then [Diag(Warn, "XLSX_EVENT_NOT_FOUND", map[])] else []);
    if |st.rows| == 0 then
      XlsxResult([], ds + [Diag(Error, "XLSX_ZERO_ROWS", map["totalRows" := total, "discarded" := st.discarded])],
        None, Falhou)
    else
      var ds := ds + [Diag(Info, "XLSX_PARSE_SUMMARY",
        map["totalRows" := total, "extractedRows" := |st.rows|, "discarded" := st.discarded])];
      XlsxResult(st.rows, ds, competencia, DetermineExtracao(|st.rows|, total, confidence, competencia, ds))
  }

  /** The result for a grid with no rows or no detected columns. */
  function Failed(totalSheets: nat): XlsxResult {
    XlsxResult([], [SheetSelected(totalSheets), ZeroRows], None, Falhou)
  }

  /** What `extractFromXlsx` returns for a workbook of `totalSheets` sheets
      whose chosen sheet reads as the grid `data`. */
  function Extract(h: Helpers, totalSheets: nat, data: seq<seq<Cell>>): XlsxResult {
    if data == [] then Failed(totalSheets)
    else
      match Detect(h.parsers, data)
      case None => Failed(totalSheets)
      case Some(d) => Detected(h, totalSheets, data, d)
  }

  /** The result once the columns `d` are detected in `data`. */
  function Detected(h: Helpers, totalSheets: nat, data: seq<seq<Cell>>, d: Detection): XlsxResult {
    var competencia := h.competence(data);
    Finish(Opening(totalSheets, d, competencia), |data|, Scan(h, d, competencia, data, |data|),
      competencia, d.confidence)
  }

  // ---------------------------------------------------------------------------
  // The extractor

  /** `extractFromXlsx` from the grid on. */
  method ExtractFromXlsx(h: Helpers, totalSheets: nat, data: seq<seq<Cell>>) returns (res: XlsxResult)
    ensures res == Extract(h, totalSheets, data)
  {
    var diagnostics := [SheetSelected(totalSheets)];
    if |data| == 0 {
      diagnostics := diagnostics + [ZeroRows];
      return XlsxResult([], diagnostics, None, Falhou);
    }
    var columns := DetectSheetColumns(h.parsers, data);
    if columns.None? {
      diagnostics := diagnostics + [ZeroRows];
      return XlsxResult([], diagnostics, None, Falhou);
    }
    res := ExtractDetected(h, totalSheets, data, columns.value);
  }

  /** The pass over the grid once the columns are detected. */
  method ExtractDetected(h: Helpers, totalSheets: nat, data: seq<seq<Cell>>, d: Detection)
    returns (res: XlsxResult)
    ensures res == Detected(h, totalSheets, data, d)
  {
    var diagnostics := [SheetSelected(totalSheets)];
    diagnostics := diagnostics + [ColumnsDetected(d)];
    var competencia := h.competence(data);
    if Missing(competencia) {
      diagnostics := diagnostics + [Diag(Warn, "XLSX_COMPETENCIA_NOT_FOUND", map[])];
    }
    assert diagnostics == Opening(totalSheets, d, competencia);

    var st := Begin;
    for i := 0 to |data|
      invariant st == Scan(h, d, competencia, data, i)
    {
      st := ExtractRow(h, d, competencia, st, data[i]);
    }
    res := FinishExtraction(diagnostics, |data|, st, competencia, d.confidence);
  }

  /** The code after the loop. */
  method FinishExtraction(ds: seq<Diag>, total: nat, st: RowScan, competencia: Option<string>,
                          confidence: Confidence) returns (res: XlsxResult)
    ensures res == Finish(ds, total, st, competencia, confidence)
  {
    var diagnostics := ds;
    if st.evento.None? && |st.rows| > 0 {
      diagnostics := diagnostics + [Diag(Warn, "XLSX_EVENT_NOT_FOUND", map[])];
    }
    if |st.rows| == 0 {
      diagnostics := diagnostics
        + [Diag(Error, "XLSX_ZERO_ROWS", map["totalRows" := total, "discarded" := st.discarded])];
      return XlsxResult([], diagnostics, None, Falhou);
    }
    diagnostics := diagnostics + [Diag(Info, "XLSX_PARSE_SUMMARY",
      map["totalRows" := total, "extractedRows" := |st.rows|, "discarded" := st.discarded])];
    var extracao := DetermineExtracao(|st.rows|, total, confidence, competencia, diagnostics);
    res := XlsxResult(st.rows, diagnostics, competencia, extracao);
    assert res.diagnostics == Finish(ds, total, st, competencia, confidence).diagnostics;
  }

  /** The body of the loop for one grid row; each `return` is a `continue`
      of the source. */
  method ExtractRow(h: Helpers, d: Detection, competencia: Option<string>, st: RowScan, row: seq<Cell>)
    returns (st': RowScan)
    ensures st' == Step(h, d, competencia, st, row)
  {
    st' := WithEvento(d, st, row);
    var matricula := h.parsers.matricula(CellAt(row, d.matriculaCol));
    if matricula.None? || matricula.value == "" {
      st' := st'.(discarded := st'.discarded + 1);
      return;
    }
    var valor := h.parsers.monetary(CellAt(row, d.valorCol));
    if valor.None? {
      st' := st'.(discarded := st'.discarded + 1);
      return;
    }
    var r := MakeRow(h, d, competencia, st'.evento, row, matricula.value, valor.value);
    st' := st'.(rows := st'.rows + [r]);
  }

  // ---------------------------------------------------------------------------
  // Properties of the pass

  /** A grid row is kept: its matricula cell reads as a non-empty matricula
      and its amount cell reads as an amount. */
  predicate Kept(h: Helpers, d: Detection, row: seq<Cell>) {
    var m := h.parsers.matricula(CellAt(row, d.matriculaCol));
    m.Some? && m.value != "" && h.parsers.monetary(CellAt(row, d.valorCol)).Some?
  }

  /** One grid row sets the event in force when it announces one, whatever
      becomes of the row; a kept row adds one row, built with that event, and
      any other row adds one to the discard counter. */
  lemma StepEffect(h: Helpers, d: Detection, competencia: Option<string>, st: RowScan, row: seq<Cell>)
    ensures var st' := Step(h, d, competencia, st, row); var e := RowEvento(d, row);
      && st'.evento == (if e.Some? then e else st.evento)
      && (Kept(h, d, row) ==>
            st'.discarded == st.discarded
            && st'.rows == st.rows + [MakeRow(h, d, competencia, st'.evento, row,
                 h.parsers.matricula(CellAt(row, d.matriculaCol)).value,
                 h.parsers.monetary(CellAt(row, d.valorCol)).value)])
      && (!Kept(h, d, row) ==> st'.discarded == st.discarded + 1 && st'.rows == st.rows)
  {
  }

  /** Every grid row is either extracted or discarded. */
  lemma {:induction false} ScanCounts(h: Helpers, d: Detection, competencia: Option<string>,
                                      data: seq<seq<Cell>>, n: nat)
    requires n <= |data|
    ensures var st := Scan(h, d, competencia, data, n); |st.rows| + st.discarded == n
  {
    if n > 0 {
      ScanCounts(h, d, competencia, data, n - 1);
      StepEffect(h, d, competencia, Scan(h, d, competencia, data, n - 1), data[n - 1]);
    }
  }

  /** The event each of the first `n` grid rows announces. */
  ghost function Eventos(d: Detection, data: seq<seq<Cell>>, n: nat): (es: seq<Option<string>>)
    requires n <= |data|
    ensures |es| == n
  {
    Each((row: seq<Cell>) => RowEvento(d, row), data, n)
  }

  lemma {:induction false} EventoAt(d: Detection, data: seq<seq<Cell>>, n: nat, k: nat)
    requires k < n <= |data|
    ensures Eventos(d, data, n)[k] == RowEvento(d, data[k])
  {
    EachAt((row: seq<Cell>) => RowEvento(d, row), data, n, k);
  }

  /** The event in force is the one the last announcing row gave, kept or
      discarded, and there is none before the first. */
  lemma {:induction false} ScanEvento(h: Helpers, d: Detection, competencia: Option<string>,
                                      data: seq<seq<Cell>>, n: nat)
    requires n <= |data|
    ensures LastIn(Eventos(d, data, n), Scan(h, d, competencia, data, n).evento)
  {
    if n > 0 {
      ScanEvento(h, d, competencia, data, n - 1);
      EventoStep(h, d, competencia, Scan(h, d, competencia, data, n - 1), data[n - 1],
        Eventos(d, data, n - 1));
      assert Eventos(d, data, n) == Eventos(d, data, n - 1) + [RowEvento(d, data[n - 1])];
    }
  }

  /** One grid row keeps the last event seen. */
  lemma EventoStep(h: Helpers, d: Detection, competencia: Option<string>, st: RowScan,
                   row: seq<Cell>, es: seq<Option<string>>)
    requires LastIn(es, st.evento)
    ensures LastIn(es + [RowEvento(d, row)], Step(h, d, competencia, st, row).evento)
  {
    StepEffect(h, d, competencia, st, row);
    LastInStep(es, RowEvento(d, row), st.evento);
  }

  /** Which of the first `n` grid rows are kept. */
  ghost function KeptFlags(h: Helpers, d: Detection, data: seq<seq<Cell>>, n: nat): (fs: seq<bool>)
    requires n <= |data|
    ensures |fs| == n
  {
    if n == 0 then [] else KeptFlags(h, d, data, n - 1) + [Kept(h, d, data[n - 1])]
  }

  lemma {:induction false} KeptAt(h: Helpers, d: Detection, data: seq<seq<Cell>>, n: nat, k: nat)
    requires k < n <= |data|
    ensures KeptFlags(h, d, data, n)[k] == Kept(h, d, data[k])
  {
    if k < n - 1 {
      KeptAt(h, d, data, n - 1, k);
    }
  }

  /** The row grid row `k` yields, if it is kept: its matricula, amount,
      name and CPF, the sheet's competence, the event in force once the row
      is read, the detection's confidence and the row's JSON as raw text. */
  ghost function GridRow(h: Helpers, d: Detection, competencia: Option<string>,
                         data: seq<seq<Cell>>, k: nat): Option<Row>
    requires k < |data|
  {
    var row := data[k];
    if !Kept(h, d, row) then None
    else
      Some(Row(Prefeitura,
        h.parsers.matricula(CellAt(row, d.matriculaCol)).value,
        h.parsers.monetary(CellAt(row, d.valorCol)).value,
        RowNome(d, row), RowCpf(d, row),
        Meta(competencia, Scan(h, d, competencia, data, k + 1).evento, Some(d.confidence), None, None),
        RawRef(None, None, Some(Raw(h, row)))))
  }

  /** GridRow as a function of the grid row number, with no row past the
      last one. */
  ghost function GridRowOf(h: Helpers, d: Detection, competencia: Option<string>,
                           data: seq<seq<Cell>>): nat -> Option<Row> {
    (k: nat) => if k < |data| then GridRow(h, d, competencia, data, k) else None
  }

  /** The rows are those of the kept grid rows (the true positions of
      KeptFlags), one each, in order. */
  lemma {:induction false} ScanRows(h: Helpers, d: Detection, competencia: Option<string>,
                                    data: seq<seq<Cell>>, n: nat)
    requires n <= |data|
    ensures Collects(KeptFlags(h, d, data, n), Scan(h, d, competencia, data, n).rows,
                     GridRowOf(h, d, competencia, data))
  {
    if n > 0 {
      ScanRows(h, d, competencia, data, n - 1);
      var p := Scan(h, d, competencia, data, n - 1);
      StepEffect(h, d, competencia, p, data[n - 1]);
      var b := Kept(h, d, data[n - 1]);
      assert Scan(h, d, competencia, data, n).rows
        == if b then p.rows + [GridRowOf(h, d, competencia, data)(n - 1).value] else p.rows;
      CollectsStep(KeptFlags(h, d, data, n - 1), p.rows, GridRowOf(h, d, competencia, data), b);
    }
  }

  /** A kept row's event is the last one announced up to and including its
      grid row; its confidence is the detection's and its competence the
      sheet's. */
  lemma GridRowMeta(h: Helpers, d: Detection, competencia: Option<string>, data: seq<seq<Cell>>, k: nat)
    requires k < |data| && GridRow(h, d, competencia, data, k).Some?
    ensures var m := GridRow(h, d, competencia, data, k).value.meta;
      && LastIn(Eventos(d, data, k + 1), m.evento)
      && m.confidence == Some(d.confidence) && m.competencia == competencia
  {
    ScanEvento(h, d, competencia, data, k + 1);
  }

  // ---------------------------------------------------------------------------
  // Properties of the result

  /** An empty grid, or one where no columns are detected, yields no rows,
      the selection and the zero-rows error, no competence, and a failed
      verdict. */
  lemma ExtractEarlyExit(h: Helpers, totalSheets: nat, data: seq<seq<Cell>>)
    requires data == [] || Detect(h.parsers, data).None?
    ensures var res := Extract(h, totalSheets, data);
      && res.rows == [] && res.competencia == None && res.extracao == Falhou
      && |res.diagnostics| == 2 && res.diagnostics[0].code == "XLSX_SHEET_SELECTED"
      && res.diagnostics[1].severity == Error && res.diagnostics[1].code == "XLSX_ZERO_ROWS"
  {
  }

  /** The diagnostics before the closing ones hold no error. */
  lemma OpeningNoError(totalSheets: nat, d: Detection, competencia: Option<string>)
    ensures var ds := Opening(totalSheets, d, competencia);
      forall i :: 0 <= i < |ds| ==> ds[i].severity != Error
  {
  }

  /** After diagnostics that hold no error: no rows means failure, the
      zero-rows error and no competence; otherwise the rows, the summary
      with the counts, and a verdict that is never a failure, and complete
      exactly when at least half the grid rows were extracted, the
      confidence is not low and a competence was found. */
  lemma FinishOutcome(ds: seq<Diag>, total: nat, st: RowScan, competencia: Option<string>,
                      confidence: Confidence)
    requires forall i :: 0 <= i < |ds| ==> ds[i].severity != Error
    ensures var res := Finish(ds, total, st, competencia, confidence); var last := res.diagnostics[|res.diagnostics| - 1];
      && res.rows == st.rows
      && (res.extracao == Falhou <==> st.rows == [])
      && (st.rows == [] ==> res.competencia == None && last.severity == Error && last.code == "XLSX_ZERO_ROWS")
      && (st.rows != [] ==>
            res.competencia == competencia && last.severity == Info && last.code == "XLSX_PARSE_SUMMARY"
            && last.details["extractedRows"] == |st.rows| && last.details["discarded"] == st.discarded
            && last.details["totalRows"] == total)
      && (res.extracao == Completa <==>
            st.rows != [] && 2 * |st.rows| >= total && confidence != Low && !Missing(competencia))
  {
    if st.rows != [] {
      var ds' := ds + (if st.evento.None? then [Diag(Warn, "XLSX_EVENT_NOT_FOUND", map[])] else [])
        + [Diag(Info, "XLSX_PARSE_SUMMARY",
             map["totalRows" := total, "extractedRows" := |st.rows|, "discarded" := st.discarded])];
      assert forall i :: 0 <= i < |ds'| ==> ds'[i].severity != Error;
      assert Finish(ds, total, st, competencia, confidence).diagnostics == ds';
    }
  }

  /** Once columns are detected, the rows are those of the pass, which
      with the discarded grid rows add up to the grid, and the outcome is
      the one FinishOutcome describes, over the whole grid. */
  lemma ExtractOutcome(h: Helpers, totalSheets: nat, data: seq<seq<Cell>>, d: Detection)
    requires data != [] && Detect(h.parsers, data) == Some(d)
    ensures var res := Extract(h, totalSheets, data); var competencia := h.competence(data);
      var st := Scan(h, d, competencia, data, |data|);
      && res.rows == st.rows
      && |res.rows| + st.discarded == |data|
      && (res.extracao == Falhou <==> res.rows == [])
      && (res.rows == [] ==> res.competencia == None)
      && (res.rows != [] ==> res.competencia == competencia)
      && (res.extracao == Completa <==>
            res.rows != [] && 2 * |res.rows| >= |data| && d.confidence != Low && !Missing(competencia))
  {
    assert Extract(h, totalSheets, data) == Detected(h, totalSheets, data, d);
    DetectedOutcome(h, totalSheets, data, d);
  }

  /** The outcome for any detected columns `d`. */
  lemma DetectedOutcome(h: Helpers, totalSheets: nat, data: seq<seq<Cell>>, d: Detection)
    ensures var res := Detected(h, totalSheets, data, d); var competencia := h.competence(data);
      var st := Scan(h, d, competencia, data, |data|);
      && res.rows == st.rows
      && |res.rows| + st.discarded == |data|
      && (res.extracao == Falhou <==> res.rows == [])
      && (res.rows == [] ==> res.competencia == None)
      && (res.rows != [] ==> res.competencia == competencia)
      && (res.extracao == Completa <==>
            res.rows != [] && 2 * |res.rows| >= |data| && d.confidence != Low && !Missing(competencia))
  {
    var competencia := h.competence(data);
    ScanCounts(h, d, competencia, data, |data|);
    OpeningNoError(totalSheets, d, competencia);
    FinishOutcome(Opening(totalSheets, d, competencia), |data|, Scan(h, d, competencia, data, |data|),
      competencia, d.confidence);
  }
}
