// The municipal payroll CSV report (src/core/prefeitura/extractFromCsvReport.ts):
// one forward scan over the lines that keeps the competence and the event
// in force, counts what it sees and turns every data line with a quoted
// amount into a row.

module CsvReport {
  import opened Domain
  import opened Text
  import opened Brl
  import opened Patterns
  import opened Sequences

  /** What `extractFromCsvReport` returns. */
  datatype ReportResult = ReportResult(
    rows: seq<Row>,
    diagnostics: seq<Diag>,
    competencia: Option<string>)

  /** The variables of the scan: the competence found, the event in force,
      the events seen, the five counters and the rows. */
  datatype ScanState = ScanState(
    competencia: Option<string>,
    evento: Option<string>,
    eventos: set<string>,
    totalLines: nat,
    dataLines: nat,
    extracted: nat,
    discardedNoValue: nat,
    discardedNoMatricula: nat,
    rows: seq<Row>)

  const Start: ScanState := ScanState(None, None, {}, 0, 0, 0, 0, 0, [])

  /** The four recognisers the scan applies to a trimmed line. The scan is
      written over any four so that its proofs do not depend on how a
      pattern is matched; the report's own are Csv below. */
  datatype Readers = Readers(
    competence: string -> Option<string>,
    event: string -> Option<string>,
    matricula: string -> Option<string>,
    value: string -> Option<int>)

  // ---------------------------------------------------------------------------
  // Specification

  /** The event code a trimmed line announces: the digits after the first
      "Evento:" marker (at most three), as a number padded to three digits. */
  function EventOf(t: string): (e: Option<string>)
    ensures e.Some? ==> |e.value| >= 3 && AllDigits(e.value)
  {
    match FindEvento(t, 3)
    case Some(d) =>
      var code := PadStart3(NatToString(DigitsValue(d)));
      assert forall k :: 0 <= k < |code| ==> IsDigit(code[k]) by {
        var s := NatToString(DigitsValue(d));
        forall k | 0 <= k < |code| ensures IsDigit(code[k]) {
          if k >= |code| - |s| {
            assert code[k] == code[|code| - |s|..][k - (|code| - |s|)] == s[k - (|code| - |s|)];
          }
        }
      }
      Some(code)
    case None => None
  }

  /** The event code denotes the number written after the marker: padding
      adds only leading zeros, and without a marker there is no event. */
  lemma EventOfValue(t: string)
    ensures FindEvento(t, 3).None? ==> EventOf(t).None?
    ensures FindEvento(t, 3).Some? ==>
      EventOf(t).Some? && DigitsValue(EventOf(t).value) == DigitsValue(FindEvento(t, 3).value)
  {
    if FindEvento(t, 3).Some? {
      var d := FindEvento(t, 3).value;
      var n := NatToString(DigitsValue(d));
      var code := PadStart3(n);
      NatToStringValue(DigitsValue(d));
      var z := code[..|code| - |n|];
      assert code == z + n;
      DigitsValueLeadingZeros(z, n);
    }
  }

  /** The amount of a data line: the last quoted `[\d.,]+` field read as
      pt-BR money, or None when there is no such field or it does not read. */
  function DataValue(t: string): (v: Option<int>)
    ensures v.Some? ==> QuotedFields(t) != []
  {
    var qs := QuotedFields(t);
    if qs == [] then None else ParseBRL(qs[|qs| - 1])
  }

  /** The report's recognisers: the competence patterns, the event marker
      with one to three digits, the leading matricula followed by a comma,
      and the last quoted amount. */
  const Csv: Readers := Readers(DetectCompetencia, EventOf, CsvMatricula, DataValue)

  /** One pass of the loop over a line: counted, and unless blank after
      trimming, read by TrimmedStep. */
  function Step(r: Readers, st: ScanState, line: string): (st': ScanState)
    ensures st'.totalLines == st.totalLines + 1
  {
    var st := st.(totalLines := st.totalLines + 1);
    var t := Trim(line);
    if t == [] then st else TrimmedStep(r, st, t)
  }

  /** A non-blank trimmed line: the competence taken if none is known yet,
      then either an event marker or a data line. */
  function TrimmedStep(r: Readers, st: ScanState, t: string): (st': ScanState)
    ensures st'.totalLines == st.totalLines
  {
    var st := if st.competencia.None? then st.(competencia := r.competence(t)) else st;
    match r.event(t)
    case Some(e) => st.(evento := Some(e), eventos := st.eventos + {e})
    case None =>
      match r.matricula(t)
      case None => st
      case Some(m) => DataStep(r, st.(dataLines := st.dataLines + 1), t, m)
  }

  /** A data line with matricula `m`: a row when its amount reads, else a
      discard. */
  function DataStep(r: Readers, st: ScanState, t: string, m: string): (st': ScanState)
    ensures st'.totalLines == st.totalLines
  {
    if |m| < 3 then st.(discardedNoMatricula := st.discardedNoMatricula + 1)
    else
      match r.value(t)
      case None => st.(discardedNoValue := st.discardedNoValue + 1)
      case Some(v) =>
        var meta := Meta(st.competencia, st.evento, Some(High), None, None);
        var row := Row(Prefeitura, m, v, None, None, meta, RawRef(None, None, Some(t)));
        st.(rows := st.rows + [row], extracted := st.extracted + 1)
  }

  /** The state after the first `n` lines. */
  function Scan(r: Readers, lines: seq<string>, n: nat): (st: ScanState)
    requires n <= |lines|
    ensures st.totalLines == n
  {
    if n == 0 then Start else Step(r, Scan(r, lines, n - 1), lines[n - 1])
  }

  function SummaryDiag(st: ScanState): Diag {
    Diag(if st.extracted > 0 then Info else Error, "prefeitura_csv_v1_summary",
      map["totalLines" := st.totalLines, "dataLinesDetected" := st.dataLines,
          "extractedRows" := st.extracted, "discardedNoValue" := st.discardedNoValue,
          "discardedNoMatricula" := st.discardedNoMatricula,
          "eventosVistosCount" := |st.eventos|])
  }

  function FailedDiag(st: ScanState): Diag {
    Diag(Error, "prefeitura_extraction_failed",
      map["totalLines" := st.totalLines, "dataLinesDetected" := st.dataLines,
          "discardedNoValue" := st.discardedNoValue,
          "discardedNoMatricula" := st.discardedNoMatricula])
  }

  /** The result `extractFromCsvReport` must produce for `text`. */
  function Report(r: Readers, text: string): ReportResult {
    var lines := SplitLines(text);
    var st := Scan(r, lines, |lines|);
    ReportResult(st.rows,
      [SummaryDiag(st)] + (if st.extracted == 0 then [FailedDiag(st)] else []),
      st.competencia)
  }

  // ---------------------------------------------------------------------------
  // The extractor

  /** `extractFromCsvReport(text)`. */
  method ExtractFromCsvReport(text: string) returns (res: ReportResult)
    ensures res == Report(Csv, text)
  {
    res := ExtractWith(Csv, text);
  }

  /** The body of `extractFromCsvReport`, for any recognisers. The scan's
      variables are kept together in one ScanState. */
  method ExtractWith(r: Readers, text: string) returns (res: ReportResult)
    ensures res == Report(r, text)
  {
    var diagnostics: seq<Diag> := [];
    var st := Start;
    var lines := SplitLines(text);
    for i := 0 to |lines|
      invariant st == Scan(r, lines, i)
    {
      st := ScanLine(r, st, lines[i]);
    }

    diagnostics := diagnostics + [SummaryDiag(st)];
    if st.extracted == 0 {
      diagnostics := diagnostics + [FailedDiag(st)];
    }
    res := ReportResult(st.rows, diagnostics, st.competencia);
  }

  /** The body of the loop for one line; each `return` is a `continue` of
      the source. */
  method ScanLine(r: Readers, st: ScanState, line: string) returns (st': ScanState)
    ensures st' == Step(r, st, line)
  {
    st' := st.(totalLines := st.totalLines + 1);
    var trimmedLine := Trim(line);
    if trimmedLine == [] {
      return;
    }
    if st'.competencia.None? {
      st' := st'.(competencia := r.competence(trimmedLine));
    }
    var eventoMatch := r.event(trimmedLine);
    if eventoMatch.Some? {
      st' := st'.(evento := eventoMatch, eventos := st'.eventos + {eventoMatch.value});
      return;
    }
    var matriculaMatch := r.matricula(trimmedLine);
    if matriculaMatch.Some? {
      st' := st'.(dataLines := st'.dataLines + 1);
      var matricula := matriculaMatch.value;
      if |matricula| < 3 {
        st' := st'.(discardedNoMatricula := st'.discardedNoMatricula + 1);
        return;
      }
      var valor := r.value(trimmedLine);
      if valor.None? {
        st' := st'.(discardedNoValue := st'.discardedNoValue + 1);
        return;
      }
      var meta := Meta(st'.competencia, st'.evento, Some(High), None, None);
      var row := Row(Prefeitura, matricula, valor.value, None, None, meta,
                     RawRef(None, None, Some(trimmedLine)));
      st' := st'.(rows := st'.rows + [row], extracted := st'.extracted + 1);
    }
  }

  // ---------------------------------------------------------------------------
  // Properties of the scan

  /** The competence a line offers: the competence patterns on the trimmed
      line, never on a blank one. */
  function LineCompetence(r: Readers, line: string): Option<string> {
    var t := Trim(line);
    if t == [] then None else r.competence(t)
  }

  /** The event a line announces, if it is an event line. */
  function LineEvent(r: Readers, line: string): Option<string> {
    var t := Trim(line);
    if t == [] then None else r.event(t)
  }

  /** A data line: not blank, no event marker, a matricula of at least three
      characters and an amount that reads. */
  predicate IsRowLine(r: Readers, line: string) {
    var t := Trim(line);
    && t != [] && r.event(t).None?
    && r.matricula(t).Some? && |r.matricula(t).value| >= 3 && r.value(t).Some?
  }

  /** The counters agree with each other: one row per extracted line, and
      every detected data line is either extracted or discarded. */
  predicate CountersAgree(st: ScanState) {
    && st.extracted == |st.rows|
    && st.dataLines == st.extracted + st.discardedNoValue + st.discardedNoMatricula
  }

  /** The scan keeps its counters in agreement. */
  lemma {:induction false} ScanCounters(r: Readers, lines: seq<string>, n: nat)
    requires n <= |lines|
    ensures CountersAgree(Scan(r, lines, n))
  {
    if n > 0 {
      ScanCounters(r, lines, n - 1);
      StepCounters(r, Scan(r, lines, n - 1), lines[n - 1]);
    } else {
      assert Scan(r, lines, n) == Start;
    }
  }

  /** One line moves the counters together: a row with every extraction,
      and a data line with every extraction or discard. */
  lemma StepCounters(r: Readers, st: ScanState, line: string)
    requires CountersAgree(st)
    ensures CountersAgree(Step(r, st, line))
  {
  }

  /** What each of the first `n` lines offers as competence. */
  ghost function Competences(r: Readers, lines: seq<string>, n: nat): (cs: seq<Option<string>>)
    requires n <= |lines|
    ensures |cs| == n
  {
    Each((line: string) => LineCompetence(r, line), lines, n)
  }

  /** The event each of the first `n` lines announces. */
  ghost function Events(r: Readers, lines: seq<string>, n: nat): (es: seq<Option<string>>)
    requires n <= |lines|
    ensures |es| == n
  {
    Each((line: string) => LineEvent(r, line), lines, n)
  }

  lemma {:induction false} CompetenceAt(r: Readers, lines: seq<string>, n: nat, k: nat)
    requires k < n <= |lines|
    ensures Competences(r, lines, n)[k] == LineCompetence(r, lines[k])
  {
    EachAt((line: string) => LineCompetence(r, line), lines, n, k);
  }

  lemma {:induction false} EventAt(r: Readers, lines: seq<string>, n: nat, k: nat)
    requires k < n <= |lines|
    ensures Events(r, lines, n)[k] == LineEvent(r, lines[k])
  {
    EachAt((line: string) => LineEvent(r, line), lines, n, k);
  }

  /** The competence is the one of the first line that offers any, and is
      absent exactly when no line does. */
  lemma {:induction false} ScanCompetence(r: Readers, lines: seq<string>, n: nat)
    requires n <= |lines|
    ensures FirstIn(Competences(r, lines, n), Scan(r, lines, n).competencia)
  {
    if n > 0 {
      ScanCompetence(r, lines, n - 1);
      CompetenceStep(r, Scan(r, lines, n - 1), lines[n - 1], Competences(r, lines, n - 1));
      assert Competences(r, lines, n)
        == Competences(r, lines, n - 1) + [LineCompetence(r, lines[n - 1])];
    } else {
      assert Scan(r, lines, n) == Start;
    }
  }

  /** One line keeps the first competence seen. */
  lemma CompetenceStep(r: Readers, st: ScanState, line: string, cs: seq<Option<string>>)
    requires FirstIn(cs, st.competencia)
    ensures FirstIn(cs + [LineCompetence(r, line)], Step(r, st, line).competencia)
  {
    StepCompetence(r, st, line);
    FirstInStep(cs, LineCompetence(r, line), st.competencia);
  }

  /** One line keeps the last event seen. */
  lemma EventoStep(r: Readers, st: ScanState, line: string, es: seq<Option<string>>)
    requires LastIn(es, st.evento)
    ensures LastIn(es + [LineEvent(r, line)], Step(r, st, line).evento)
  {
    StepEvento(r, st, line);
    LastInStep(es, LineEvent(r, line), st.evento);
  }

  /** The event in force is the one of the last event line, and there is
      none before the first. */
  lemma {:induction false} ScanEvento(r: Readers, lines: seq<string>, n: nat)
    requires n <= |lines|
    ensures LastIn(Events(r, lines, n), Scan(r, lines, n).evento)
  {
    if n > 0 {
      ScanEvento(r, lines, n - 1);
      EventoStep(r, Scan(r, lines, n - 1), lines[n - 1], Events(r, lines, n - 1));
      assert Events(r, lines, n) == Events(r, lines, n - 1) + [LineEvent(r, lines[n - 1])];
    } else {
      assert Scan(r, lines, n) == Start;
    }
  }

  /** The events seen are the events of all event lines. */
  lemma {:induction false} ScanEventos(r: Readers, lines: seq<string>, n: nat)
    requires n <= |lines|
    ensures Scan(r, lines, n).eventos == Present(Events(r, lines, n))
  {
    if n > 0 {
      ScanEventos(r, lines, n - 1);
      var p := Scan(r, lines, n - 1);
      StepEvento(r, p, lines[n - 1]);
      PresentStep(Events(r, lines, n - 1), LineEvent(r, lines[n - 1]));
    } else {
      assert Scan(r, lines, n) == Start;
    }
  }

  /** The competence is taken from the first line that offers one. */
  lemma StepCompetence(r: Readers, st: ScanState, line: string)
    ensures Step(r, st, line).competencia
      == (if st.competencia.Some? then st.competencia else LineCompetence(r, line))
  {
  }

  /** An event line sets the event in force and adds it to those seen; any
      other line leaves both alone. */
  lemma StepEvento(r: Readers, st: ScanState, line: string)
    ensures var st' := Step(r, st, line); var e := LineEvent(r, line);
      && st'.evento == (if e.Some? then e else st.evento)
      && st'.eventos == st.eventos + (if e.Some? then {e.value} else {})
  {
  }

  /** Which of the first `n` lines are data lines. */
  ghost function RowFlags(r: Readers, lines: seq<string>, n: nat): (fs: seq<bool>)
    requires n <= |lines|
    ensures |fs| == n
  {
    if n == 0 then [] else RowFlags(r, lines, n - 1) + [IsRowLine(r, lines[n - 1])]
  }

  lemma RowFlagAt(r: Readers, lines: seq<string>, n: nat, k: nat)
    requires k < n <= |lines|
    ensures RowFlags(r, lines, n)[k] == IsRowLine(r, lines[k])
  {
    if k < n - 1 {
      RowFlagAt(r, lines, n - 1, k);
    }
  }

  /** The row line `k` yields, if it is a data line: its matricula and
      amount, the competence and event in force once it is read, and the
      trimmed line as raw text. */
  ghost function LineRow(r: Readers, lines: seq<string>, k: nat): Option<Row>
    requires k < |lines|
  {
    if !IsRowLine(r, lines[k]) then None
    else
      var t := Trim(lines[k]);
      var st := Scan(r, lines, k + 1);
      Some(Row(Prefeitura, r.matricula(t).value, r.value(t).value, None, None,
        Meta(st.competencia, st.evento, Some(High), None, None), RawRef(None, None, Some(t))))
  }

  /** Only a data line adds a row, and exactly one. */
  lemma StepRows(r: Readers, st: ScanState, line: string)
    ensures var st' := Step(r, st, line); var t := Trim(line);
      && (IsRowLine(r, line) ==>
            st'.rows == st.rows + [Row(Prefeitura, r.matricula(t).value, r.value(t).value,
              None, None, Meta(st'.competencia, st'.evento, Some(High), None, None),
              RawRef(None, None, Some(t)))])
      && (!IsRowLine(r, line) ==> st'.rows == st.rows)
  {
  }

  /** LineRow as a function of the line number, with no row past the last
      line. */
  ghost function RowOf(r: Readers, lines: seq<string>): nat -> Option<Row> {
    (k: nat) => if k < |lines| then LineRow(r, lines, k) else None
  }

  /** The rows are those of the data lines (the true positions of
      RowFlags), one each, in order. */
  lemma {:induction false} ScanRows(r: Readers, lines: seq<string>, n: nat)
    requires n <= |lines|
    ensures Collects(RowFlags(r, lines, n), Scan(r, lines, n).rows, RowOf(r, lines))
  {
    if n > 0 {
      ScanRows(r, lines, n - 1);
      var p := Scan(r, lines, n - 1);
      StepRows(r, p, lines[n - 1]);
      var b := IsRowLine(r, lines[n - 1]);
      assert Scan(r, lines, n).rows == if b then p.rows + [RowOf(r, lines)(n - 1).value] else p.rows;
      CollectsStep(RowFlags(r, lines, n - 1), p.rows, RowOf(r, lines), b);
    } else {
      assert Scan(r, lines, n) == Start;
    }
  }

  /** A row's competence is the first one offered up to its line, and its
      event the last one announced up to its line. */
  lemma RowMeta(r: Readers, lines: seq<string>, k: nat)
    requires k < |lines| && LineRow(r, lines, k).Some?
    ensures FirstIn(Competences(r, lines, k + 1), LineRow(r, lines, k).value.meta.competencia)
    ensures LastIn(Events(r, lines, k + 1), LineRow(r, lines, k).value.meta.evento)
  {
    ScanCompetence(r, lines, k + 1);
    ScanEvento(r, lines, k + 1);
  }

  /** With recognisers that never give a matricula shorter than three
      characters, no line is discarded for its matricula. */
  lemma {:induction false} NoShortMatricula(r: Readers, lines: seq<string>, n: nat)
    requires n <= |lines|
    requires forall t :: r.matricula(t).Some? ==> |r.matricula(t).value| >= 3
    ensures Scan(r, lines, n).discardedNoMatricula == 0
  {
    if n > 0 {
      NoShortMatricula(r, lines, n - 1);
      StepNoShortMatricula(r, Scan(r, lines, n - 1), lines[n - 1]);
    } else {
      assert Scan(r, lines, n) == Start;
    }
  }

  lemma StepNoShortMatricula(r: Readers, st: ScanState, line: string)
    requires forall t :: r.matricula(t).Some? ==> |r.matricula(t).value| >= 3
    ensures Step(r, st, line).discardedNoMatricula == st.discardedNoMatricula
  {
    var t := Trim(line);
    if r.matricula(t).Some? {
      assert |r.matricula(t).value| >= 3;
    }
  }

  /** The report's matricula pattern needs at least three digits, so its
      `length < 3` discard never happens. */
  lemma MatriculaGuardDead(lines: seq<string>)
    ensures Scan(Csv, lines, |lines|).discardedNoMatricula == 0
  {
    forall t | Csv.matricula(t).Some?
      ensures |Csv.matricula(t).value| >= 3
    {
      assert Csv.matricula(t) == CsvMatricula(t);
    }
    NoShortMatricula(Csv, lines, |lines|);
  }

  /** The diagnostics: a summary, info exactly when rows were extracted,
      whose counts are those of the scan, followed by the failure error
      exactly when no row was extracted. */
  lemma ReportDiagnostics(r: Readers, text: string)
    ensures var res := Report(r, text); var lines := SplitLines(text);
      var st := Scan(r, lines, |lines|); var ds := res.diagnostics;
      && |ds| == (if res.rows == [] then 2 else 1)
      && ds[0].code == "prefeitura_csv_v1_summary"
      && (ds[0].severity == Info <==> res.rows != [])
      && (ds[0].severity == Error <==> res.rows == [])
      && ds[0].details["totalLines"] == |lines|
      && ds[0].details["extractedRows"] == |res.rows|
      && ds[0].details["eventosVistosCount"] == |Present(Events(r, lines, |lines|))|
      && (res.rows == [] ==> ds[1].severity == Error && ds[1].code == "prefeitura_extraction_failed")
  {
    var lines := SplitLines(text);
    ScanCounters(r, lines, |lines|);
    ScanEventos(r, lines, |lines|);
  }
}
