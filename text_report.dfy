// The free-text payroll report extractor
// (src/core/prefeitura/connectors/text/parseTextReport.ts), over the text a
// PDF or DOCX conversion yields. A standard pass reads a matricula and its
// amounts off the same line; when it finds no row, a second pass collects
// the lines that hold only a matricula and the lines that hold a CPF and an
// amount, and pairs the two lists by their order.

module TextReport {
  import opened Domain
  import opened Text
  import opened Patterns
  import opened Sequences
  import opened TextLines

  /** What `parseTextReport` returns. */
  datatype TextReportResult = TextReportResult(
    rows: seq<Row>,
    diagnostics: seq<Diag>,
    competencia: Option<string>,
    eventosDetectados: nat)

  /** What the passes read off a trimmed line. The passes are written over
      any such readers so that their proofs do not depend on how a pattern
      is matched; the report's own are Recognisers below. */
  datatype Readers = Readers(
    competence: string -> Option<string>,
    event: string -> Option<string>,
    matriculaStart: string -> Option<Match>,
    matriculaAnywhere: string -> Option<string>,
    hasCpf: string -> bool,
    values: string -> seq<int>,
    header: string -> bool,
    nomeCpf: string -> NomeCpf)

  /** `detectCompetencia`, the event marker with one to four digits padded
      to three, the matricula at the start and anywhere, the CPF test, the
      amounts, `isHeaderLine` and `extractNomeCpf`. */
  const Recognisers: Readers := Readers(DetectCompetencia, TextEvent, MatriculaStart,
    MatriculaAnywhere, HasCpf, Valores, IsHeaderLine, ExtractNomeCpf)

  /** `trimmedLine.slice(0, 300)`. */
  function Raw(t: string): (raw: string)
    ensures |raw| == (if |t| <= 300 then |t| else 300)
    ensures raw == t[..|raw|]
  {
    if |t| <= 300 then t else t[..300]
  }

  // ---------------------------------------------------------------------------
  // The competence and the event, kept alike by both passes

  /** The competence found, the event in force and the number of event
      lines seen. */
  datatype Context = Context(competencia: Option<string>, evento: Option<string>, eventos: nat)

  const Start: Context := Context(None, None, 0)

  /** A non-blank trimmed line: its competence is taken if none is known
      yet, and an event marker sets the event and is counted. */
  function Note(r: Readers, c: Context, t: string): Context {
    var c := if c.competencia.None? then c.(competencia := r.competence(t)) else c;
    match r.event(t)
    case Some(e) => c.(evento := Some(e), eventos := c.eventos + 1)
    case None => c
  }

  /** A line, blank ones included. */
  function Observe(r: Readers, c: Context, line: string): Context {
    var t := Trim(line);
    if t == [] then c else Note(r, c, t)
  }

  /** The context after the first `n` lines. */
  function ContextScan(r: Readers, lines: seq<string>, n: nat): Context
    requires n <= |lines|
  {
    if n == 0 then Start else Observe(r, ContextScan(r, lines, n - 1), lines[n - 1])
  }

  // ---------------------------------------------------------------------------
  // The standard pass: matricula and amounts on the same line

  /** The variables of `parseStandardFormat`'s loop. */
  datatype StdState = StdState(
    ctx: Context,
    dataLines: nat,
    extracted: nat,
    discardedNoValue: nat,
    rows: seq<Row>)

  const StdStart: StdState := StdState(Start, 0, 0, 0, [])

  /** The matricula of a standard line: the one at its start, or, when the
      line has no CPF, the leftmost one anywhere. */
  function StdMatricula(r: Readers, t: string): Option<string> {
    match r.matriculaStart(t)
    case Some(m) => Some(m.text)
    case None => if r.hasCpf(t) then None else r.matriculaAnywhere(t)
  }

  /** The row of a standard line with matricula `m`, amounts `valores` and
      chosen amount `v`: confidence high exactly when there is one amount. */
  function StdRow(r: Readers, c: Context, t: string, m: string, valores: seq<int>, v: int): Row {
    var nc := r.nomeCpf(t);
    Row(Prefeitura, m, v, None, None,
      Meta(c.competencia, c.evento, Some(if |valores| == 1 then High else Medium), nc.nome, nc.cpf),
      RawRef(None, None, Some(Raw(t))))
  }

  /** One pass of the loop: a blank line is skipped, an event line only
      noted, any other line read by StdData. */
  function StdStep(r: Readers, st: StdState, line: string): StdState {
    var t := Trim(line);
    if t == [] then st
    else
      var st := st.(ctx := Note(r, st.ctx, t));
      if r.event(t).Some? then st else StdData(r, st, t)
  }

  /** A line that is neither blank nor an event line: a data line when it
      has a matricula, extracted when an amount is chosen, else discarded. */
  function StdData(r: Readers, st: StdState, t: string): StdState {
    match StdMatricula(r, t)
    case None => st
    case Some(m) =>
      var st := st.(dataLines := st.dataLines + 1);
      var valores := r.values(t);
      match ChooseValue(valores)
      case None => st.(discardedNoValue := st.discardedNoValue + 1)
      case Some(v) =>
        st.(extracted := st.extracted + 1, rows := st.rows + [StdRow(r, st.ctx, t, m, valores, v)])
  }

  /** The state after the first `n` lines. */
  function StdScan(r: Readers, lines: seq<string>, n: nat): StdState
    requires n <= |lines|
  {
    if n == 0 then StdStart else StdStep(r, StdScan(r, lines, n - 1), lines[n - 1])
  }

  const CompetenciaNotFound: Diag := Diag(Warn, "TEXT_COMPETENCIA_NOT_FOUND", map[])
  const EventNotFound: Diag := Diag(Warn, "TEXT_EVENT_NOT_FOUND", map[])

  /** What `addDiagnostics` appends: the competence and event warnings,
      then the zero-rows error or the summary. */
  function StdDiags(competencia: Option<string>, eventos: nat, extracted: nat, dataLines: nat,
                    discardedNoValue: nat, totalLines: nat): seq<Diag>
  {
    (if competencia.None? then [CompetenciaNotFound] else [])
    + (if eventos == 0 && extracted > 0 then [EventNotFound] else [])
    + (if extracted == 0 then
         [Diag(Error, "TEXT_ZERO_ROWS",
           map["dataLinesDetected" := dataLines, "discardedNoValue" := discardedNoValue])]
       else
         [Diag(Info, "TEXT_PARSE_SUMMARY",
           map["totalLines" := totalLines, "dataLinesDetected" := dataLines,
               "extractedRows" := extracted, "discardedNoValue" := discardedNoValue,
               "eventosDetectados" := eventos])])
  }

  /** The result `parseStandardFormat` must produce for `text`. */
  function Standard(r: Readers, text: string): TextReportResult {
    var lines := SplitLines(text);
    var st := StdScan(r, lines, |lines|);
    TextReportResult(st.rows,
      StdDiags(st.ctx.competencia, st.ctx.eventos, st.extracted, st.dataLines, st.discardedNoValue, |lines|),
      st.ctx.competencia, st.ctx.eventos)
  }

  // ---------------------------------------------------------------------------
  // The column-separated pass

  /** A CPF line with an amount: its name and CPF, the chosen amount, the
      event in force and the raw text. */
  datatype Dado = Dado(nome: Option<string>, cpf: Option<string>, valor: int, evento: Option<string>, raw: string)

  /** The variables of `parseColumnSeparatedFormat`'s first loop. */
  datatype ColState = ColState(ctx: Context, matriculas: seq<string>, dados: seq<Dado>)

  const ColStart: ColState := ColState(Start, [], [])

  /** A pure matricula line: a matricula at the start, no CPF, and either a
      short line or only digits, slashes, spaces and points after the
      matricula. */
  function PureMatricula(r: Readers, t: string): Option<string> {
    match r.matriculaStart(t)
    case Some(m) => if !r.hasCpf(t) && IsShortOrNumeric(t, m.end) then Some(m.text) else None
    case None => None
  }

  /** A CPF line whose amount is chosen, under the event `evento`. */
  function LineDado(r: Readers, evento: Option<string>, t: string): Option<Dado> {
    if !r.hasCpf(t) then None
    else
      match ChooseValue(r.values(t))
      case None => None
      case Some(v) =>
        var nc := r.nomeCpf(t);
        Some(Dado(nc.nome, nc.cpf, v, evento, Raw(t)))
  }

  /** One pass of the first loop: blank lines skipped, event and header
      lines only noted, any other line read by ColData. */
  function ColStep(r: Readers, st: ColState, line: string): ColState {
    var t := Trim(line);
    if t == [] then st
    else
      var st := st.(ctx := Note(r, st.ctx, t));
      if r.event(t).Some? || r.header(t) then st else ColData(r, st, t)
  }

  /** A pure matricula is collected; otherwise a CPF line with an amount. */
  function ColData(r: Readers, st: ColState, t: string): ColState {
    match PureMatricula(r, t)
    case Some(m) => st.(matriculas := st.matriculas + [m])
    case None =>
      match LineDado(r, st.ctx.evento, t)
      case Some(d) => st.(dados := st.dados + [d])
      case None => st
  }

  /** The state after the first `n` lines. */
  function ColScan(r: Readers, lines: seq<string>, n: nat): ColState
    requires n <= |lines|
  {
    if n == 0 then ColStart else ColStep(r, ColScan(r, lines, n - 1), lines[n - 1])
  }

  /** The row pairing matricula `m` with the data `d`: confidence medium,
      the final competence, and the event, name, CPF, amount and raw text
      of the data. */
  function PairRow(m: string, d: Dado, competencia: Option<string>): Row {
    Row(Prefeitura, m, d.valor, None, None, Meta(competencia, d.evento, Some(Medium), d.nome, d.cpf),
      RawRef(None, None, Some(d.raw)))
  }

  /** The first `n` pairs, the i-th matricula with the i-th data. */
  function Pairs(ms: seq<string>, ds: seq<Dado>, competencia: Option<string>, n: nat): (rows: seq<Row>)
    requires n <= |ms| && n <= |ds|
    ensures |rows| == n
    ensures forall i :: 0 <= i < n ==> rows[i] == PairRow(ms[i], ds[i], competencia)
  {
    if n == 0 then [] else Pairs(ms, ds, competencia, n - 1) + [PairRow(ms[n - 1], ds[n - 1], competencia)]
  }

  function Min(a: nat, b: nat): nat {
    if a < b then a else b
  }

  /** The diagnostics of the column-separated pass: the zero-rows error, or
      the mismatch warning when the lists differ in length and the summary;
      then the competence and event warnings. */
  function ColDiags(competencia: Option<string>, eventos: nat, matriculas: nat, dados: nat,
                    extracted: nat, totalLines: nat): seq<Diag>
  {
    (if extracted == 0 then
       [Diag(Error, "TEXT_ZERO_ROWS", map["matriculasFound" := matriculas, "dadosComValorFound" := dados])]
     else
       (if matriculas != dados then
          [Diag(Warn, "TEXT_COLUMN_MISMATCH",
            map["matriculasFound" := matriculas, "dadosComValorFound" := dados, "matched" := extracted])]
        else [])
       + [Diag(Info, "TEXT_PARSE_SUMMARY",
           map["totalLines" := totalLines, "matriculasFound" := matriculas,
               "dadosComValorFound" := dados, "extractedRows" := extracted,
               "eventosDetectados" := eventos])])
    + (if competencia.None? then [CompetenciaNotFound] else [])
    + (if eventos == 0 && extracted > 0 then [EventNotFound] else [])
  }

  /** The result `parseColumnSeparatedFormat` must produce for `text`. */
  function ColumnSeparated(r: Readers, text: string): TextReportResult {
    var lines := SplitLines(text);
    var st := ColScan(r, lines, |lines|);
    var rows := Pairs(st.matriculas, st.dados, st.ctx.competencia, Min(|st.matriculas|, |st.dados|));
    TextReportResult(rows,
      ColDiags(st.ctx.competencia, st.ctx.eventos, |st.matriculas|, |st.dados|, |rows|, |lines|),
      st.ctx.competencia, st.ctx.eventos)
  }

  /** `parseTextReport`: the standard result when it has a row, else the
      column-separated one. */
  function ParseTextReport(r: Readers, text: string): (res: TextReportResult)
    ensures res.rows == [] <==> Standard(r, text).rows == [] && ColumnSeparated(r, text).rows == []
  {
    var standardResult := Standard(r, text);
    if |standardResult.rows| > 0 then standardResult else ColumnSeparated(r, text)
  }

  // ---------------------------------------------------------------------------
  // The passes

  /** `parseStandardFormat(text)`. The loop's variables are kept together
      in one StdState. */
  method ParseStandardFormat(r: Readers, text: string) returns (res: TextReportResult)
    ensures res == Standard(r, text)
  {
    var diagnostics: seq<Diag> := [];
    var lines := SplitLines(text);
    var st := StdStart;
    for i := 0 to |lines|
      invariant st == StdScan(r, lines, i)
    {
      st := StandardLine(r, st, lines[i]);
    }
    diagnostics := AddDiagnostics(diagnostics, st.ctx.competencia, st.ctx.eventos, st.extracted,
      st.dataLines, st.discardedNoValue, |lines|);
    res := TextReportResult(st.rows, diagnostics, st.ctx.competencia, st.ctx.eventos);
  }

  /** The body of the standard loop for one line; each `return` is a
      `continue` of the source. */
  method StandardLine(r: Readers, st: StdState, line: string) returns (st': StdState)
    ensures st' == StdStep(r, st, line)
  {
    st' := st;
    var trimmedLine := Trim(line);
    if trimmedLine == [] {
      return;
    }
    var ctx := st'.ctx;
    if ctx.competencia.None? {
      ctx := ctx.(competencia := r.competence(trimmedLine));
    }
    var eventoMatch := r.event(trimmedLine);
    if eventoMatch.Some? {
      ctx := ctx.(evento := eventoMatch, eventos := ctx.eventos + 1);
      st' := st'.(ctx := ctx);
      return;
    }
    st' := st'.(ctx := ctx);
    var matriculaMatch := r.matriculaStart(trimmedLine);
    var hasCPF := r.hasCpf(trimmedLine);
    if matriculaMatch.None? {
      if hasCPF {
        return;
      }
      var anywhereMatch := r.matriculaAnywhere(trimmedLine);
      if anywhereMatch.None? {
        return;
      }
    }
    var matricula := if matriculaMatch.Some? then matriculaMatch.value.text
                     else r.matriculaAnywhere(trimmedLine).value;
    st' := st'.(dataLines := st'.dataLines + 1);
    var valores := r.values(trimmedLine);
    var valor := ChooseValue(valores);
    if valor.None? {
      st' := st'.(discardedNoValue := st'.discardedNoValue + 1);
      return;
    }
    var row := StdRow(r, st'.ctx, trimmedLine, matricula, valores, valor.value);
    st' := st'.(extracted := st'.extracted + 1, rows := st'.rows + [row]);
  }

  /** `addDiagnostics`: the standard pass's diagnostics appended to
      `diagnostics`. */
  method AddDiagnostics(diagnostics: seq<Diag>, competenciaFound: Option<string>, eventosDetectados: nat,
                        extractedRows: nat, dataLinesDetected: nat, discardedNoValue: nat,
                        totalLines: nat) returns (ds: seq<Diag>)
    ensures ds == diagnostics + StdDiags(competenciaFound, eventosDetectados, extractedRows,
                                         dataLinesDetected, discardedNoValue, totalLines)
  {
    ds := diagnostics;
    if competenciaFound.None? {
      ds := ds + [CompetenciaNotFound];
    }
    if eventosDetectados == 0 && extractedRows > 0 {
      ds := ds + [EventNotFound];
    }
    if extractedRows == 0 {
      ds := ds + [Diag(Error, "TEXT_ZERO_ROWS",
        map["dataLinesDetected" := dataLinesDetected, "discardedNoValue" := discardedNoValue])];
    } else {
      ds := ds + [Diag(Info, "TEXT_PARSE_SUMMARY",
        map["totalLines" := totalLines, "dataLinesDetected" := dataLinesDetected,
            "extractedRows" := extractedRows, "discardedNoValue" := discardedNoValue,
            "eventosDetectados" := eventosDetectados])];
    }
  }

  /** `parseColumnSeparatedFormat(text)`. */
  method ParseColumnSeparatedFormat(r: Readers, text: string) returns (res: TextReportResult)
    ensures res == ColumnSeparated(r, text)
  {
    var lines := SplitLines(text);
    var st := ColStart;
    for i := 0 to |lines|
      invariant st == ColScan(r, lines, i)
    {
      st := ColumnLine(r, st, lines[i]);
    }
    var rows := PairColumns(st.matriculas, st.dados, st.ctx.competencia);
    var diagnostics := ColumnDiagnostics(st.ctx.competencia, st.ctx.eventos, |st.matriculas|,
      |st.dados|, |rows|, |lines|);
    res := TextReportResult(rows, diagnostics, st.ctx.competencia, st.ctx.eventos);
  }

  /** The body of the first loop for one line. */
  method ColumnLine(r: Readers, st: ColState, line: string) returns (st': ColState)
    ensures st' == ColStep(r, st, line)
  {
    st' := st;
    var trimmedLine := Trim(line);
    if trimmedLine == [] {
      return;
    }
    var ctx := st'.ctx;
    if ctx.competencia.None? {
      ctx := ctx.(competencia := r.competence(trimmedLine));
    }
    var eventoMatch := r.event(trimmedLine);
    if eventoMatch.Some? {
      ctx := ctx.(evento := eventoMatch, eventos := ctx.eventos + 1);
      st' := st'.(ctx := ctx);
      return;
    }
    st' := st'.(ctx := ctx);
    if r.header(trimmedLine) {
      return;
    }
    var matriculaMatch := r.matriculaStart(trimmedLine);
    var cpfMatch := r.hasCpf(trimmedLine);
    if matriculaMatch.Some? && !cpfMatch {
      if IsShortOrNumeric(trimmedLine, matriculaMatch.value.end) {
        st' := st'.(matriculas := st'.matriculas + [matriculaMatch.value.text]);
        return;
      }
    }
    if cpfMatch {
      var valores := r.values(trimmedLine);
      var valor := ChooseValue(valores);
      if valor.Some? {
        var nc := r.nomeCpf(trimmedLine);
        var dado := Dado(nc.nome, nc.cpf, valor.value, st'.ctx.evento, Raw(trimmedLine));
        st' := st'.(dados := st'.dados + [dado]);
      }
    }
  }

  /** The pairing loop: the i-th matricula with the i-th data, as many as
      the shorter list holds. */
  method PairColumns(ms: seq<string>, ds: seq<Dado>, competencia: Option<string>) returns (rows: seq<Row>)
    ensures rows == Pairs(ms, ds, competencia, Min(|ms|, |ds|))
  {
    var minLen := Min(|ms|, |ds|);
    rows := [];
    for i := 0 to minLen
      invariant rows == Pairs(ms, ds, competencia, i)
    {
      var dado := ds[i];
      rows := rows + [PairRow(ms[i], dado, competencia)];
    }
  }

  /** The diagnostics at the end of the column-separated pass. */
  method ColumnDiagnostics(competencia: Option<string>, eventos: nat, matriculas: nat, dados: nat,
                           extracted: nat, totalLines: nat) returns (diagnostics: seq<Diag>)
    ensures diagnostics == ColDiags(competencia, eventos, matriculas, dados, extracted, totalLines)
  {
    diagnostics := [];
    if extracted == 0 {
      diagnostics := diagnostics + [Diag(Error, "TEXT_ZERO_ROWS",
        map["matriculasFound" := matriculas, "dadosComValorFound" := dados])];
    } else {
      if matriculas != dados {
        diagnostics := diagnostics + [Diag(Warn, "TEXT_COLUMN_MISMATCH",
          map["matriculasFound" := matriculas, "dadosComValorFound" := dados, "matched" := extracted])];
      }
      diagnostics := diagnostics + [Diag(Info, "TEXT_PARSE_SUMMARY",
        map["totalLines" := totalLines, "matriculasFound" := matriculas,
            "dadosComValorFound" := dados, "extractedRows" := extracted,
            "eventosDetectados" := eventos])];
    }
    if competencia.None? {
      diagnostics := diagnostics + [CompetenciaNotFound];
    }
    if eventos == 0 && extracted > 0 {
      diagnostics := diagnostics + [EventNotFound];
    }
  }

  // ---------------------------------------------------------------------------
  // Properties of the context

  /** The competence a line offers, never a blank one's. */
  function LineCompetence(r: Readers, line: string): Option<string> {
    var t := Trim(line);
    if t == [] then None else r.competence(t)
  }

  /** The event a line announces, if it is an event line. */
  function LineEvent(r: Readers, line: string): Option<string> {
    var t := Trim(line);
    if t == [] then None else r.event(t)
  }

  /** What each of the first `n` lines offers as competence. */
  ghost function Competences(r: Readers, lines: seq<string>, n: nat): (cs: seq<Option<string>>)
    requires n <= |lines|
    ensures |cs| == n
  {
    Each((line: string) => LineCompetence(r, line), lines, n)
  }

  /** The event each of the first `n` lines announces. */
  ghost function Events(r: Readers, lines: seq<string>, n: nat): (es: seq<Option<string>>)
    requires n <= |lines|
    ensures |es| == n
  {
    Each((line: string) => LineEvent(r, line), lines, n)
  }

  /** Which of the first `n` lines are event lines. */
  ghost function EventFlags(r: Readers, lines: seq<string>, n: nat): (fs: seq<bool>)
    requires n <= |lines|
    ensures |fs| == n
  {
    if n == 0 then [] else EventFlags(r, lines, n - 1) + [LineEvent(r, lines[n - 1]).Some?]
  }

  lemma {:induction false} CompetenceAt(r: Readers, lines: seq<string>, n: nat, k: nat)
    requires k < n <= |lines|
    ensures Competences(r, lines, n)[k] == LineCompetence(r, lines[k])
  {
    EachAt((line: string) => LineCompetence(r, line), lines, n, k);
  }

  lemma {:induction false} EventAt(r: Readers, lines: seq<string>, n: nat, k: nat)
    requires k < n <= |lines|
    ensures Events(r, lines, n)[k] == LineEvent(r, lines[k])
  {
    EachAt((line: string) => LineEvent(r, line), lines, n, k);
  }

  /** One line: the competence is kept once known and otherwise taken from
      the line; an event line sets the event and is counted, any other
      line leaves both alone. */
  lemma ObserveEffect(r: Readers, c: Context, line: string)
    ensures var c' := Observe(r, c, line); var e := LineEvent(r, line);
      && c'.competencia == (if c.competencia.Some? then c.competencia else LineCompetence(r, line))
      && c'.evento == (if e.Some? then e else c.evento)
      && c'.eventos == c.eventos + (if e.Some? then 1 else 0)
  {
  }

  /** The competence is the first one any line offers, and is absent
      exactly when no line offers one. */
  lemma {:induction false} ContextCompetence(r: Readers, lines: seq<string>, n: nat)
    requires n <= |lines|
    ensures FirstIn(Competences(r, lines, n), ContextScan(r, lines, n).competencia)
  {
    if n > 0 {
      ContextCompetence(r, lines, n - 1);
      ContextCompetenceStep(r, lines, n);
    }
  }

  lemma ContextCompetenceStep(r: Readers, lines: seq<string>, n: nat)
    requires 0 < n <= |lines|
    requires FirstIn(Competences(r, lines, n - 1), ContextScan(r, lines, n - 1).competencia)
    ensures FirstIn(Competences(r, lines, n), ContextScan(r, lines, n).competencia)
  {
    var c, cs := ContextScan(r, lines, n - 1), Competences(r, lines, n - 1);
    assert ContextScan(r, lines, n) == Observe(r, c, lines[n - 1]);
    assert Competences(r, lines, n) == cs + [LineCompetence(r, lines[n - 1])];
    CompetenceStep(r, c, lines[n - 1], cs);
  }

  /** One line keeps the first competence seen. */
  lemma CompetenceStep(r: Readers, c: Context, line: string, cs: seq<Option<string>>)
    requires FirstIn(cs, c.competencia)
    ensures FirstIn(cs + [LineCompetence(r, line)], Observe(r, c, line).competencia)
  {
    ObserveEffect(r, c, line);
    FirstInStep(cs, LineCompetence(r, line), c.competencia);
  }

  /** The event in force is the one of the last event line, and there is
      none before the first. */
  lemma {:induction false} ContextEvento(r: Readers, lines: seq<string>, n: nat)
    requires n <= |lines|
    ensures LastIn(Events(r, lines, n), ContextScan(r, lines, n).evento)
  {
    if n > 0 {
      ContextEvento(r, lines, n - 1);
      ContextEventoStep(r, lines, n);
    }
  }

  lemma ContextEventoStep(r: Readers, lines: seq<string>, n: nat)
    requires 0 < n <= |lines|
    requires LastIn(Events(r, lines, n - 1), ContextScan(r, lines, n - 1).evento)
    ensures LastIn(Events(r, lines, n), ContextScan(r, lines, n).evento)
  {
    var c, es := ContextScan(r, lines, n - 1), Events(r, lines, n - 1);
    assert ContextScan(r, lines, n) == Observe(r, c, lines[n - 1]);
    assert Events(r, lines, n) == es + [LineEvent(r, lines[n - 1])];
    EventoStep(r, c, lines[n - 1], es);
  }

  /** One line keeps the last event seen. */
  lemma EventoStep(r: Readers, c: Context, line: string, es: seq<Option<string>>)
    requires LastIn(es, c.evento)
    ensures LastIn(es + [LineEvent(r, line)], Observe(r, c, line).evento)
  {
    ObserveEffect(r, c, line);
    LastInStep(es, LineEvent(r, line), c.evento);
  }

  /** `eventosDetectados` is the number of event lines. */
  lemma {:induction false} ContextEventos(r: Readers, lines: seq<string>, n: nat)
    requires n <= |lines|
    ensures ContextScan(r, lines, n).eventos == |Indices(EventFlags(r, lines, n))|
  {
    if n > 0 {
      ContextEventos(r, lines, n - 1);
      ObserveEffect(r, ContextScan(r, lines, n - 1), lines[n - 1]);
      var fs := EventFlags(r, lines, n);
      var init := EventFlags(r, lines, n - 1);
      assert fs[..n - 1] == init;
      assert Indices(fs) == Indices(init) + (if fs[n - 1] then [n - 1] else []);
    }
  }

  /** No event was counted exactly when no line is an event line. */
  lemma NoEventos(r: Readers, lines: seq<string>, n: nat)
    requires n <= |lines|
    ensures ContextScan(r, lines, n).eventos == 0 <==> forall k :: 0 <= k < n ==> LineEvent(r, lines[k]).None?
  {
    EventosCountEvento(r, lines, n);
    ContextEvento(r, lines, n);
    forall k | 0 <= k < n ensures Events(r, lines, n)[k] == LineEvent(r, lines[k]) {
      EventAt(r, lines, n, k);
    }
  }

  /** No event line has been counted exactly when no event is in force. */
  lemma {:induction false} EventosCountEvento(r: Readers, lines: seq<string>, n: nat)
    requires n <= |lines|
    ensures ContextScan(r, lines, n).eventos == 0 <==> ContextScan(r, lines, n).evento.None?
  {
    if n > 0 {
      EventosCountEvento(r, lines, n - 1);
      ObserveEffect(r, ContextScan(r, lines, n - 1), lines[n - 1]);
    }
  }



  // ---------------------------------------------------------------------------
  // Properties of the standard pass

  /** A data line of the standard pass: not blank, no event marker, and a
      matricula. */
  predicate IsStdDataLine(r: Readers, line: string) {
    var t := Trim(line);
    t != [] && r.event(t).None? && StdMatricula(r, t).Some?
  }

  /** A data line of the standard pass that yields a row: an amount is
      chosen. */
  predicate IsStdRowLine(r: Readers, line: string) {
    IsStdDataLine(r, line) && r.values(Trim(line)) != []
  }

  /** An event line is never a data line; a line with a CPF and no
      matricula at its start is never one either. */
  lemma StdLineRules(r: Readers, line: string)
    ensures var t := Trim(line);
      && (r.event(t).Some? ==> !IsStdDataLine(r, line))
      && (r.hasCpf(t) && r.matriculaStart(t).None? ==> !IsStdDataLine(r, line))
      && (r.matriculaStart(t).Some? && r.event(t).None? && t != [] ==>
            IsStdDataLine(r, line) && StdMatricula(r, t) == Some(r.matriculaStart(t).value.text))
  {
  }

  /** One line of the standard pass: the context moves as Observe says; a
      line that is no data line changes nothing else; a data line is
      counted, then discarded when it has no amount, or else adds one row
      built from the context once the line is read. */
  lemma StdStepEffect(r: Readers, st: StdState, line: string)
    ensures var st' := StdStep(r, st, line); var t := Trim(line);
      && st'.ctx == Observe(r, st.ctx, line)
      && (!IsStdDataLine(r, line) ==> st' == st.(ctx := st'.ctx))
      && (IsStdDataLine(r, line) && !IsStdRowLine(r, line) ==>
            st' == st.(ctx := st'.ctx, dataLines := st.dataLines + 1,
                       discardedNoValue := st.discardedNoValue + 1))
      && (IsStdRowLine(r, line) ==>
            st' == st.(ctx := st'.ctx, dataLines := st.dataLines + 1, extracted := st.extracted + 1,
                       rows := st.rows + [StdRow(r, st'.ctx, t, StdMatricula(r, t).value, r.values(t),
                                                 ChooseValue(r.values(t)).value)]))
  {
  }

  /** The standard pass keeps the context both passes keep. */
  lemma {:induction false} StdContext(r: Readers, lines: seq<string>, n: nat)
    requires n <= |lines|
    ensures StdScan(r, lines, n).ctx == ContextScan(r, lines, n)
  {
    if n > 0 {
      StdContext(r, lines, n - 1);
      StdStepEffect(r, StdScan(r, lines, n - 1), lines[n - 1]);
    }
  }

  /** The counters agree: one row per extracted line, and every data line
      is extracted or discarded for want of an amount. */
  lemma {:induction false} StdCounters(r: Readers, lines: seq<string>, n: nat)
    requires n <= |lines|
    ensures var st := StdScan(r, lines, n);
      && st.extracted == |st.rows|
      && st.dataLines == st.extracted + st.discardedNoValue
  {
    if n > 0 {
      StdCounters(r, lines, n - 1);
      StdStepEffect(r, StdScan(r, lines, n - 1), lines[n - 1]);
    }
  }

  /** Which of the first `n` lines yield a row. */
  ghost function StdFlags(r: Readers, lines: seq<string>, n: nat): (fs: seq<bool>)
    requires n <= |lines|
    ensures |fs| == n
  {
    if n == 0 then [] else StdFlags(r, lines, n - 1) + [IsStdRowLine(r, lines[n - 1])]
  }

  lemma {:induction false} StdFlagAt(r: Readers, lines: seq<string>, n: nat, k: nat)
    requires k < n <= |lines|
    ensures StdFlags(r, lines, n)[k] == IsStdRowLine(r, lines[k])
  {
    if k < n - 1 {
      StdFlagAt(r, lines, n - 1, k);
    }
  }

  /** The row line `k` yields in the standard pass, if any: its matricula,
      its chosen amount, its name and CPF, the context once it is read, and
      the confidence its number of amounts gives. */
  ghost function StdLineRow(r: Readers, lines: seq<string>, k: nat): Option<Row>
    requires k < |lines|
  {
    if !IsStdRowLine(r, lines[k]) then None
    else
      var t := Trim(lines[k]);
      Some(StdRow(r, ContextScan(r, lines, k + 1), t, StdMatricula(r, t).value, r.values(t),
        ChooseValue(r.values(t)).value))
  }

  /** StdLineRow as a function of the line number, with no row past the
      last line. */
  ghost function StdRowOf(r: Readers, lines: seq<string>): nat -> Option<Row> {
    (k: nat) => if k < |lines| then StdLineRow(r, lines, k) else None
  }

  /** The rows are those of the lines that yield one (the true positions of
      StdFlags), one each, in order. */
  lemma {:induction false} StdRows(r: Readers, lines: seq<string>, n: nat)
    requires n <= |lines|
    ensures Collects(StdFlags(r, lines, n), StdScan(r, lines, n).rows, StdRowOf(r, lines))
  {
    if n > 0 {
      StdRows(r, lines, n - 1);
      StdContext(r, lines, n - 1);
      StdRowsStep(r, lines, n, StdScan(r, lines, n - 1));
    }
  }

  /** Line `n - 1` adds the row it yields, if any. */
  lemma StdRowsStep(r: Readers, lines: seq<string>, n: nat, p: StdState)
    requires 0 < n <= |lines| && p.ctx == ContextScan(r, lines, n - 1)
    requires Collects(StdFlags(r, lines, n - 1), p.rows, StdRowOf(r, lines))
    ensures Collects(StdFlags(r, lines, n), StdStep(r, p, lines[n - 1]).rows, StdRowOf(r, lines))
  {
    StdStepEffect(r, p, lines[n - 1]);
    var b := IsStdRowLine(r, lines[n - 1]);
    assert StdStep(r, p, lines[n - 1]).rows
      == if b then p.rows + [StdRowOf(r, lines)(n - 1).value] else p.rows;
    CollectsStep(StdFlags(r, lines, n - 1), p.rows, StdRowOf(r, lines), b);
  }

  /** A standard row carries the first competence offered up to its line,
      the last event announced up to its line, confidence high exactly when
      its line has one amount, one of those amounts, and its line cut to
      300 characters. */
  lemma StdRowMeta(r: Readers, lines: seq<string>, k: nat)
    requires k < |lines| && StdLineRow(r, lines, k).Some?
    ensures var row := StdLineRow(r, lines, k).value; var t := Trim(lines[k]);
      && FirstIn(Competences(r, lines, k + 1), row.meta.competencia)
      && LastIn(Events(r, lines, k + 1), row.meta.evento)
      && (row.meta.confidence == Some(High) <==> |r.values(t)| == 1)
      && (row.meta.confidence == Some(Medium) <==> |r.values(t)| != 1)
      && row.cents in r.values(t)
      && row.rawRef.raw == Some(Raw(t))
      && row.meta.nome == r.nomeCpf(t).nome && row.meta.cpf == r.nomeCpf(t).cpf
  {
    ContextCompetence(r, lines, k + 1);
    ContextEvento(r, lines, k + 1);
    ChooseValueSpec(r.values(Trim(lines[k])));
  }

  /** With the report's recognisers, a data line is discarded exactly when
      it holds no money text, and its row is of high confidence exactly
      when it holds one. */
  lemma StdMoney(line: string)
    requires IsStdDataLine(Recognisers, line)
    ensures var t := Trim(line);
      && (IsStdRowLine(Recognisers, line) <==> MoneyMatches(t) != [])
      && |Recognisers.values(t)| == |MoneyMatches(t)|
  {
    ValoresAll(Trim(line));
  }

  // ---------------------------------------------------------------------------
  // Properties of the column-separated pass

  /** A line the column-separated pass reads for data: not blank, no event
      marker, no header. */
  predicate IsColDataLine(r: Readers, line: string) {
    var t := Trim(line);
    t != [] && r.event(t).None? && !r.header(t)
  }

  /** A line that adds a matricula. */
  predicate IsPureLine(r: Readers, line: string) {
    IsColDataLine(r, line) && PureMatricula(r, Trim(line)).Some?
  }

  /** A line that adds data: a CPF line with an amount that is not a pure
      matricula line. */
  predicate IsDadoLine(r: Readers, line: string) {
    var t := Trim(line);
    IsColDataLine(r, line) && PureMatricula(r, t).None? && r.hasCpf(t) && r.values(t) != []
  }

  /** One line of the first loop: the context moves as Observe says; a pure
      matricula line adds its matricula, a data line its data under the
      event in force, and any other line nothing. */
  lemma ColStepEffect(r: Readers, st: ColState, line: string)
    ensures var st' := ColStep(r, st, line); var t := Trim(line);
      && st'.ctx == Observe(r, st.ctx, line)
      && !(IsPureLine(r, line) && IsDadoLine(r, line))
      && (IsPureLine(r, line) ==>
            st'.matriculas == st.matriculas + [PureMatricula(r, t).value] && st'.dados == st.dados)
      && (IsDadoLine(r, line) ==>
            st'.matriculas == st.matriculas
            && st'.dados == st.dados + [LineDado(r, st'.ctx.evento, t).value])
      && (!IsPureLine(r, line) && !IsDadoLine(r, line) ==>
            st'.matriculas == st.matriculas && st'.dados == st.dados)
  {
  }

  /** The column-separated pass keeps the context both passes keep. */
  lemma {:induction false} ColContext(r: Readers, lines: seq<string>, n: nat)
    requires n <= |lines|
    ensures ColScan(r, lines, n).ctx == ContextScan(r, lines, n)
  {
    if n > 0 {
      ColContext(r, lines, n - 1);
      ColStepEffect(r, ColScan(r, lines, n - 1), lines[n - 1]);
    }
  }

  /** Which of the first `n` lines are pure matricula lines. */
  ghost function PureFlags(r: Readers, lines: seq<string>, n: nat): (fs: seq<bool>)
    requires n <= |lines|
    ensures |fs| == n
  {
    if n == 0 then [] else PureFlags(r, lines, n - 1) + [IsPureLine(r, lines[n - 1])]
  }

  /** Which of the first `n` lines are data lines. */
  ghost function DadoFlags(r: Readers, lines: seq<string>, n: nat): (fs: seq<bool>)
    requires n <= |lines|
    ensures |fs| == n
  {
    if n == 0 then [] else DadoFlags(r, lines, n - 1) + [IsDadoLine(r, lines[n - 1])]
  }

  lemma {:induction false} ColFlagAt(r: Readers, lines: seq<string>, n: nat, k: nat)
    requires k < n <= |lines|
    ensures PureFlags(r, lines, n)[k] == IsPureLine(r, lines[k])
    ensures DadoFlags(r, lines, n)[k] == IsDadoLine(r, lines[k])
  {
    if k < n - 1 {
      ColFlagAt(r, lines, n - 1, k);
    }
  }

  /** The matricula line `k` adds, if any, with none past the last line. */
  ghost function PureOf(r: Readers, lines: seq<string>): nat -> Option<string> {
    (k: nat) => if k < |lines| && IsPureLine(r, lines[k]) then PureMatricula(r, Trim(lines[k])) else None
  }

  /** The data line `k` adds, if any, under the event in force once it is
      read, with none past the last line. */
  ghost function DadoOf(r: Readers, lines: seq<string>): nat -> Option<Dado> {
    (k: nat) => if k < |lines| && IsDadoLine(r, lines[k])
         then LineDado(r, ContextScan(r, lines, k + 1).evento, Trim(lines[k])) else None
  }

  /** The matriculas are those of the pure matricula lines, in order. */
  lemma {:induction false} ColMatriculas(r: Readers, lines: seq<string>, n: nat)
    requires n <= |lines|
    ensures Collects(PureFlags(r, lines, n), ColScan(r, lines, n).matriculas, PureOf(r, lines))
  {
    if n > 0 {
      ColMatriculas(r, lines, n - 1);
      var p := ColScan(r, lines, n - 1);
      ColStepEffect(r, p, lines[n - 1]);
      var b := IsPureLine(r, lines[n - 1]);
      assert ColScan(r, lines, n).matriculas
        == if b then p.matriculas + [PureOf(r, lines)(n - 1).value] else p.matriculas;
      CollectsStep(PureFlags(r, lines, n - 1), p.matriculas, PureOf(r, lines), b);
    }
  }

  /** The data are those of the data lines, in order, each under the event
      in force once its line is read. */
  lemma {:induction false} ColDados(r: Readers, lines: seq<string>, n: nat)
    requires n <= |lines|
    ensures Collects(DadoFlags(r, lines, n), ColScan(r, lines, n).dados, DadoOf(r, lines))
  {
    if n > 0 {
      ColDados(r, lines, n - 1);
      var p := ColScan(r, lines, n - 1);
      ColStepEffect(r, p, lines[n - 1]);
      ColContext(r, lines, n);
      var b := IsDadoLine(r, lines[n - 1]);
      assert ColScan(r, lines, n).dados
        == if b then p.dados + [DadoOf(r, lines)(n - 1).value] else p.dados;
      CollectsStep(DadoFlags(r, lines, n - 1), p.dados, DadoOf(r, lines), b);
    }
  }

  /** The column-separated rows: as many as the shorter list, the i-th
      pairing the i-th pure matricula with the i-th data, each of medium
      confidence with the competence found over the whole text. */
  lemma ColumnRows(r: Readers, text: string)
    ensures var res := ColumnSeparated(r, text); var lines := SplitLines(text);
      var st := ColScan(r, lines, |lines|);
      && |res.rows| == Min(|st.matriculas|, |st.dados|)
      && forall i :: 0 <= i < |res.rows| ==>
           && res.rows[i].matricula == st.matriculas[i]
           && res.rows[i].cents == st.dados[i].valor
           && res.rows[i].meta.evento == st.dados[i].evento
           && res.rows[i].meta.confidence == Some(Medium)
           && res.rows[i].meta.competencia == res.competencia
           && res.rows[i].meta.competencia == ContextScan(r, lines, |lines|).competencia
  {
    var lines := SplitLines(text);
    ColContext(r, lines, |lines|);
  }

  // ---------------------------------------------------------------------------
  // Properties of the diagnostics

  /** Some diagnostic of `ds` has the code `code`. */
  predicate Emits(ds: seq<Diag>, code: string) {
    exists i :: 0 <= i < |ds| && ds[i].code == code
  }

  /** Every diagnostic of `ds` with the code `code` has severity `sev`. */
  predicate SeverityOf(ds: seq<Diag>, code: string, sev: Severity) {
    forall i :: 0 <= i < |ds| && ds[i].code == code ==> ds[i].severity == sev
  }

  lemma EmitsAppend(a: seq<Diag>, b: seq<Diag>, code: string)
    ensures Emits(a + b, code) <==> Emits(a, code) || Emits(b, code)
    ensures SeverityOf(a, code, Error) && SeverityOf(b, code, Error) ==> SeverityOf(a + b, code, Error)
    ensures SeverityOf(a, code, Warn) && SeverityOf(b, code, Warn) ==> SeverityOf(a + b, code, Warn)
    ensures SeverityOf(a, code, Info) && SeverityOf(b, code, Info) ==> SeverityOf(a + b, code, Info)
  {
    if Emits(a + b, code) {
      var i :| 0 <= i < |a + b| && (a + b)[i].code == code;
      if i >= |a| {
        assert b[i - |a|].code == code;
      }
    }
    if Emits(a, code) {
      var i :| 0 <= i < |a| && a[i].code == code;
      assert (a + b)[i].code == code;
    }
    if Emits(b, code) {
      var i :| 0 <= i < |b| && b[i].code == code;
      assert (a + b)[|a| + i].code == code;
    }
  }

  /** A diagnostic list of at most one element emits a code exactly when
      its element has it. */
  lemma EmitsSingle(ds: seq<Diag>, code: string)
    requires |ds| <= 1
    ensures Emits(ds, code) <==> ds != [] && ds[0].code == code
    ensures forall sev :: SeverityOf(ds, code, sev) <==> (ds != [] && ds[0].code == code ==> ds[0].severity == sev)
  {
  }

  /** Three lists of at most one diagnostic each, one after the other. */
  lemma EmitsThree(a: seq<Diag>, b: seq<Diag>, c: seq<Diag>, code: string)
    requires |a| <= 1 && |b| <= 1 && |c| <= 1
    ensures Emits(a + b + c, code) <==>
      (a != [] && a[0].code == code) || (b != [] && b[0].code == code) || (c != [] && c[0].code == code)
    ensures forall sev ::
      (a != [] && a[0].code == code ==> a[0].severity == sev)
      && (b != [] && b[0].code == code ==> b[0].severity == sev)
      && (c != [] && c[0].code == code ==> c[0].severity == sev)
      ==> SeverityOf(a + b + c, code, sev)
  {
    EmitsAppend(a, b, code);
    EmitsAppend(a + b, c, code);
    EmitsSingle(a, code);
    EmitsSingle(b, code);
    EmitsSingle(c, code);
  }

  /** The closing diagnostic of the standard pass. */
  function StdClosing(extracted: nat, dataLines: nat, discardedNoValue: nat, eventos: nat,
                      totalLines: nat): Diag
  {
    if extracted == 0 then
      Diag(Error, "TEXT_ZERO_ROWS", map["dataLinesDetected" := dataLines, "discardedNoValue" := discardedNoValue])
    else
      Diag(Info, "TEXT_PARSE_SUMMARY",
        map["totalLines" := totalLines, "dataLinesDetected" := dataLines,
            "extractedRows" := extracted, "discardedNoValue" := discardedNoValue,
            "eventosDetectados" := eventos])
  }

  /** The standard diagnostics are the two optional warnings and the
      closing diagnostic, in that order. */
  lemma StdDiagsParts(competencia: Option<string>, eventos: nat, extracted: nat, dataLines: nat,
                      discardedNoValue: nat, totalLines: nat)
    ensures StdDiags(competencia, eventos, extracted, dataLines, discardedNoValue, totalLines)
      == (if competencia.None? then [CompetenciaNotFound] else [])
         + (if eventos == 0 && extracted > 0 then [EventNotFound] else [])
         + [StdClosing(extracted, dataLines, discardedNoValue, eventos, totalLines)]
  {
  }

  /** The standard pass's diagnostics: the zero-rows error exactly when no
      row was extracted and the summary otherwise, the competence warning
      exactly when no competence was found, the event warning exactly when
      rows were extracted without any event line, and never the mismatch
      warning. */
  lemma StdDiagsSpec(competencia: Option<string>, eventos: nat, extracted: nat, dataLines: nat,
                     discardedNoValue: nat, totalLines: nat)
    ensures var ds := StdDiags(competencia, eventos, extracted, dataLines, discardedNoValue, totalLines);
      && (Emits(ds, "TEXT_ZERO_ROWS") <==> extracted == 0)
      && (Emits(ds, "TEXT_PARSE_SUMMARY") <==> extracted > 0)
      && (Emits(ds, "TEXT_COMPETENCIA_NOT_FOUND") <==> competencia.None?)
      && (Emits(ds, "TEXT_EVENT_NOT_FOUND") <==> eventos == 0 && extracted > 0)
      && !Emits(ds, "TEXT_COLUMN_MISMATCH")
      && SeverityOf(ds, "TEXT_ZERO_ROWS", Error) && SeverityOf(ds, "TEXT_PARSE_SUMMARY", Info)
      && SeverityOf(ds, "TEXT_COMPETENCIA_NOT_FOUND", Warn) && SeverityOf(ds, "TEXT_EVENT_NOT_FOUND", Warn)
  {
    var a: seq<Diag> := if competencia.None? then [CompetenciaNotFound] else [];
    var b: seq<Diag> := if eventos == 0 && extracted > 0 then [EventNotFound] else [];
    var c := [StdClosing(extracted, dataLines, discardedNoValue, eventos, totalLines)];
    StdDiagsParts(competencia, eventos, extracted, dataLines, discardedNoValue, totalLines);
    EmitsThree(a, b, c, "TEXT_ZERO_ROWS");
    EmitsThree(a, b, c, "TEXT_PARSE_SUMMARY");
    EmitsThree(a, b, c, "TEXT_COMPETENCIA_NOT_FOUND");
    EmitsThree(a, b, c, "TEXT_EVENT_NOT_FOUND");
    EmitsThree(a, b, c, "TEXT_COLUMN_MISMATCH");
  }

  /** Four lists of at most one diagnostic each, one after the other. */
  lemma EmitsFour(a: seq<Diag>, b: seq<Diag>, c: seq<Diag>, d: seq<Diag>, code: string)
    requires |a| <= 1 && |b| <= 1 && |c| <= 1 && |d| <= 1
    ensures Emits(a + b + c + d, code) <==>
      (a != [] && a[0].code == code) || (b != [] && b[0].code == code)
      || (c != [] && c[0].code == code) || (d != [] && d[0].code == code)
    ensures forall sev ::
      (a != [] && a[0].code == code ==> a[0].severity == sev)
      && (b != [] && b[0].code == code ==> b[0].severity == sev)
      && (c != [] && c[0].code == code ==> c[0].severity == sev)
      && (d != [] && d[0].code == code ==> d[0].severity == sev)
      ==> SeverityOf(a + b + c + d, code, sev)
  {
    EmitsThree(a, b, c, code);
    EmitsAppend(a + b + c, d, code);
    EmitsSingle(d, code);
  }

  /** The mismatch warning of the column-separated pass. */
  function Mismatch(matriculas: nat, dados: nat, extracted: nat): Diag {
    Diag(Warn, "TEXT_COLUMN_MISMATCH",
      map["matriculasFound" := matriculas, "dadosComValorFound" := dados, "matched" := extracted])
  }

  /** The zero-rows error or the summary of the column-separated pass. */
  function ColClosing(eventos: nat, matriculas: nat, dados: nat, extracted: nat, totalLines: nat): Diag {
    if extracted == 0 then
      Diag(Error, "TEXT_ZERO_ROWS", map["matriculasFound" := matriculas, "dadosComValorFound" := dados])
    else
      Diag(Info, "TEXT_PARSE_SUMMARY",
        map["totalLines" := totalLines, "matriculasFound" := matriculas,
            "dadosComValorFound" := dados, "extractedRows" := extracted,
            "eventosDetectados" := eventos])
  }

  /** The column-separated diagnostics are the optional mismatch warning,
      the closing diagnostic and the two optional warnings, in that
      order. */
  lemma ColDiagsParts(competencia: Option<string>, eventos: nat, matriculas: nat, dados: nat,
                      extracted: nat, totalLines: nat)
    ensures ColDiags(competencia, eventos, matriculas, dados, extracted, totalLines)
      == (if extracted > 0 && matriculas != dados then [Mismatch(matriculas, dados, extracted)] else [])
         + [ColClosing(eventos, matriculas, dados, extracted, totalLines)]
         + (if competencia.None? then [CompetenciaNotFound] else [])
         + (if eventos == 0 && extracted > 0 then [EventNotFound] else [])
  {
  }

  /** The column-separated pass's diagnostics: the zero-rows error exactly
      when there is no row and the summary otherwise, the mismatch warning
      exactly when there are rows and the two lists differ in length, and
      the competence and event warnings as in the standard pass. */
  lemma ColDiagsSpec(competencia: Option<string>, eventos: nat, matriculas: nat, dados: nat,
                     extracted: nat, totalLines: nat)
    ensures var ds := ColDiags(competencia, eventos, matriculas, dados, extracted, totalLines);
      && (Emits(ds, "TEXT_ZERO_ROWS") <==> extracted == 0)
      && (Emits(ds, "TEXT_PARSE_SUMMARY") <==> extracted > 0)
      && (Emits(ds, "TEXT_COLUMN_MISMATCH") <==> extracted > 0 && matriculas != dados)
      && (Emits(ds, "TEXT_COMPETENCIA_NOT_FOUND") <==> competencia.None?)
      && (Emits(ds, "TEXT_EVENT_NOT_FOUND") <==> eventos == 0 && extracted > 0)
      && SeverityOf(ds, "TEXT_ZERO_ROWS", Error) && SeverityOf(ds, "TEXT_PARSE_SUMMARY", Info)
      && SeverityOf(ds, "TEXT_COLUMN_MISMATCH", Warn)
      && SeverityOf(ds, "TEXT_COMPETENCIA_NOT_FOUND", Warn) && SeverityOf(ds, "TEXT_EVENT_NOT_FOUND", Warn)
  {
    ColDiagsParts(competencia, eventos, matriculas, dados, extracted, totalLines);
    ColPartsSpec(competencia, eventos, matriculas, dados, extracted, totalLines);
  }

  /** ColDiagsSpec over the four parts ColDiagsParts names. */
  lemma ColPartsSpec(competencia: Option<string>, eventos: nat, matriculas: nat, dados: nat,
                     extracted: nat, totalLines: nat)
    ensures var ds :=
        (if extracted > 0 && matriculas != dados then [Mismatch(matriculas, dados, extracted)] else [])
         + [ColClosing(eventos, matriculas, dados, extracted, totalLines)]
         + (if competencia.None? then [CompetenciaNotFound] else [])
         + (if eventos == 0 && extracted > 0 then [EventNotFound] else []);
      && (Emits(ds, "TEXT_ZERO_ROWS") <==> extracted == 0)
      && (Emits(ds, "TEXT_PARSE_SUMMARY") <==> extracted > 0)
      && (Emits(ds, "TEXT_COLUMN_MISMATCH") <==> extracted > 0 && matriculas != dados)
      && (Emits(ds, "TEXT_COMPETENCIA_NOT_FOUND") <==> competencia.None?)
      && (Emits(ds, "TEXT_EVENT_NOT_FOUND") <==> eventos == 0 && extracted > 0)
      && SeverityOf(ds, "TEXT_ZERO_ROWS", Error) && SeverityOf(ds, "TEXT_PARSE_SUMMARY", Info)
      && SeverityOf(ds, "TEXT_COLUMN_MISMATCH", Warn)
      && SeverityOf(ds, "TEXT_COMPETENCIA_NOT_FOUND", Warn) && SeverityOf(ds, "TEXT_EVENT_NOT_FOUND", Warn)
  {
    var a: seq<Diag> := if extracted > 0 && matriculas != dados then [Mismatch(matriculas, dados, extracted)] else [];
    var b := [ColClosing(eventos, matriculas, dados, extracted, totalLines)];
    var c: seq<Diag> := if competencia.None? then [CompetenciaNotFound] else [];
    var d: seq<Diag> := if eventos == 0 && extracted > 0 then [EventNotFound] else [];
    EmitsFour(a, b, c, d, "TEXT_ZERO_ROWS");
    EmitsFour(a, b, c, d, "TEXT_PARSE_SUMMARY");
    EmitsFour(a, b, c, d, "TEXT_COLUMN_MISMATCH");
    EmitsFour(a, b, c, d, "TEXT_COMPETENCIA_NOT_FOUND");
    EmitsFour(a, b, c, d, "TEXT_EVENT_NOT_FOUND");
  }

  // ---------------------------------------------------------------------------
  // Properties of the results

  /** The standard result: its rows are the pass's; the zero-rows error
      exactly when there is none; the competence warning exactly when no
      line offers a competence; the event warning exactly when there are
      rows and no line is an event line; `eventosDetectados` counts the
      event lines; and the summary carries the counters, every data line
      being extracted or discarded. */
  lemma StandardOutcome(r: Readers, text: string)
    ensures var res := Standard(r, text); var lines := SplitLines(text); var ds := res.diagnostics;
      var st := StdScan(r, lines, |lines|);
      && res.rows == st.rows
      && (Emits(ds, "TEXT_ZERO_ROWS") <==> res.rows == [])
      && (Emits(ds, "TEXT_PARSE_SUMMARY") <==> res.rows != [])
      && (Emits(ds, "TEXT_COMPETENCIA_NOT_FOUND") <==>
            forall k :: 0 <= k < |lines| ==> LineCompetence(r, lines[k]).None?)
      && (Emits(ds, "TEXT_EVENT_NOT_FOUND") <==>
            res.rows != [] && forall k :: 0 <= k < |lines| ==> LineEvent(r, lines[k]).None?)
      && !Emits(ds, "TEXT_COLUMN_MISMATCH")
      && FirstIn(Competences(r, lines, |lines|), res.competencia)
      && res.eventosDetectados == |Indices(EventFlags(r, lines, |lines|))|
      && st.dataLines == |res.rows| + st.discardedNoValue
  {
    var lines := SplitLines(text);
    var n := |lines|;
    var st := StdScan(r, lines, n);
    StdContext(r, lines, n);
    StdCounters(r, lines, n);
    ContextCompetence(r, lines, n);
    ContextEventos(r, lines, n);
    NoEventos(r, lines, n);
    NoCompetence(r, lines, n);
    StdDiagsSpec(st.ctx.competencia, st.ctx.eventos, st.extracted, st.dataLines, st.discardedNoValue, n);
  }

  /** No competence was found exactly when no line offers one. */
  lemma NoCompetence(r: Readers, lines: seq<string>, n: nat)
    requires n <= |lines|
    ensures ContextScan(r, lines, n).competencia.None? <==>
      forall k :: 0 <= k < n ==> LineCompetence(r, lines[k]).None?
  {
    ContextCompetence(r, lines, n);
    forall k | 0 <= k < n ensures Competences(r, lines, n)[k] == LineCompetence(r, lines[k]) {
      CompetenceAt(r, lines, n, k);
    }
  }

  /** The column-separated result: the rows ColumnRows describes; the
      zero-rows error exactly when there is none; the mismatch warning
      exactly when there are rows and the lists differ in length; the
      competence and event warnings as in the standard pass. */
  lemma ColumnOutcome(r: Readers, text: string)
    ensures var res := ColumnSeparated(r, text); var lines := SplitLines(text); var ds := res.diagnostics;
      var st := ColScan(r, lines, |lines|);
      && (Emits(ds, "TEXT_ZERO_ROWS") <==> res.rows == [])
      && (Emits(ds, "TEXT_PARSE_SUMMARY") <==> res.rows != [])
      && (Emits(ds, "TEXT_COLUMN_MISMATCH") <==> res.rows != [] && |st.matriculas| != |st.dados|)
      && (Emits(ds, "TEXT_COMPETENCIA_NOT_FOUND") <==>
            forall k :: 0 <= k < |lines| ==> LineCompetence(r, lines[k]).None?)
      && (Emits(ds, "TEXT_EVENT_NOT_FOUND") <==>
            res.rows != [] && forall k :: 0 <= k < |lines| ==> LineEvent(r, lines[k]).None?)
      && FirstIn(Competences(r, lines, |lines|), res.competencia)
      && res.eventosDetectados == |Indices(EventFlags(r, lines, |lines|))|
  {
    var lines := SplitLines(text);
    var n := |lines|;
    var st := ColScan(r, lines, n);
    var rows := Pairs(st.matriculas, st.dados, st.ctx.competencia, Min(|st.matriculas|, |st.dados|));
    ColContext(r, lines, n);
    ContextCompetence(r, lines, n);
    ContextEventos(r, lines, n);
    NoEventos(r, lines, n);
    NoCompetence(r, lines, n);
    ColDiagsSpec(st.ctx.competencia, st.ctx.eventos, |st.matriculas|, |st.dados|, |rows|, n);
  }

  /** `parseTextReport` gives the standard result when it has a row and the
      column-separated one otherwise; either way the zero-rows error is
      there exactly when there is no row. */
  lemma ParseTextReportOutcome(r: Readers, text: string)
    ensures var res := ParseTextReport(r, text);
      && (Standard(r, text).rows != [] ==> res == Standard(r, text))
      && (Standard(r, text).rows == [] ==> res == ColumnSeparated(r, text))
      && (Emits(res.diagnostics, "TEXT_ZERO_ROWS") <==> res.rows == [])
      && SeverityOf(res.diagnostics, "TEXT_ZERO_ROWS", Error)
  {
    StandardOutcome(r, text);
    ColumnOutcome(r, text);
    var lines := SplitLines(text);
    var st := StdScan(r, lines, |lines|);
    StdDiagsSpec(st.ctx.competencia, st.ctx.eventos, st.extracted, st.dataLines, st.discardedNoValue, |lines|);
    var cs := ColScan(r, lines, |lines|);
    var rows := Pairs(cs.matriculas, cs.dados, cs.ctx.competencia, Min(|cs.matriculas|, |cs.dados|));
    ColDiagsSpec(cs.ctx.competencia, cs.ctx.eventos, |cs.matriculas|, |cs.dados|, |rows|, |lines|);
  }
}
