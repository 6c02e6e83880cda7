// One line of the bank's fixed-width TXT file (src/core/bank/parseLine.ts).
// Layout, by zero-based character position: 0 record type ('1' header,
// '2' data), 22..33 full matricula (10 digits of base, 2 of suffix),
// 34..43 event, 44..49 competence MMYYYY, 50..56 amount in centavos.

module BankLine {
  import opened Domain
  import opened Text
  import opened Patterns

  /** The shortest data line: the amount field ends at position 57. */
  const MinLineLength: nat := 57

  /** `line.replace(/[\r\n]/g, '')`. */
  function RemoveLineBreaks(s: string): (r: string)
    ensures |r| <= |s|
    ensures forall i :: 0 <= i < |r| ==> r[i] != '\r' && r[i] != '\n'
  {
    if s == [] then []
    else if s[0] == '\r' || s[0] == '\n' then RemoveLineBreaks(s[1..])
    else [s[0]] + RemoveLineBreaks(s[1..])
  }

  /** Removing line breaks leaves a line that holds none unchanged. */
  lemma {:induction false} RemoveLineBreaksIdentity(s: string)
    requires forall i :: 0 <= i < |s| ==> s[i] != '\r' && s[i] != '\n'
    ensures RemoveLineBreaks(s) == s
  {
    if s != [] {
      RemoveLineBreaksIdentity(s[1..]);
    }
  }

  /** What one line yields: a row, a diagnostic, or neither. */
  datatype LineResult = LineResult(row: Option<Row>, diag: Option<Diag>)

  /** The "base-suffix" matricula of a 12-digit field, each part written
      without leading zeros: "000000008501" is "85-1". */
  function BankMatricula(field: string): (m: string)
    requires |field| == 12 && AllDigits(field)
    ensures '-' in m
  {
    var base := NatToString(DigitsValue(field[..10]));
    var suffix := NatToString(DigitsValue(field[10..]));
    assert (base + "-" + suffix)[|base|] == '-';
    base + "-" + suffix
  }

  /** The matricula reads back: cut at its hyphen, the two parts are
      canonical decimal numerals of the base and the suffix fields. */
  lemma BankMatriculaReadsBack(field: string)
    requires |field| == 12 && AllDigits(field)
    ensures var m := BankMatricula(field); var i := IndexOf(m, '-');
      i < |m| && AllDigits(m[..i]) && AllDigits(m[i + 1..])
      && DigitsValue(m[..i]) == DigitsValue(field[..10])
      && DigitsValue(m[i + 1..]) == DigitsValue(field[10..])
      && (m[0] != '0' || i == 1)
  {
    var base := NatToString(DigitsValue(field[..10]));
    var suffix := NatToString(DigitsValue(field[10..]));
    var m := base + "-" + suffix;
    assert forall k :: 0 <= k < |base| ==> m[k] == base[k];
    assert m[|base|] == '-';
    assert forall k :: 0 <= k < |base| ==> base[k] != '-';
    assert IndexOf(m, '-') == |base|;
    assert m[..|base|] == base && m[|base| + 1..] == suffix;
    NatToStringValue(DigitsValue(field[..10]));
    NatToStringValue(DigitsValue(field[10..]));
  }

  /** The matricula of the test line with base 85 and suffix 01. */
  lemma BankMatriculaExample()
    ensures BankMatricula("000000008501") == "85-1"
  {
    var field := "000000008501";
    assert field[..10] == "00000000" + "85";
    DigitsValueLeadingZeros("00000000", "85");
    assert DigitsValue("85") == 85;
    ValueNatToString("85");
    assert field[10..] == "0" + "1";
    DigitsValueLeadingZeros("0", "1");
    ValueNatToString("1");
  }

  /** "MM/YYYY" from the six-character competence field, when it is all
      digits. */
  function BankCompetencia(raw: string): (c: Option<string>)
    requires |raw| == 6
    ensures c.Some? <==> AllDigits(raw)
    ensures c.Some? ==> IsCompetenciaText(c.value)
  {
    if AllDigits(raw) then
      var c := raw[..2] + "/" + raw[2..];
      assert forall k :: 0 <= k < 2 ==> c[k] == raw[k];
      assert forall k :: 3 <= k < 7 ==> c[k] == raw[k - 1];
      Some(c)
    else None
  }

  /** `String(parseInt(field, 10))` when the event field is all digits. */
  function BankEvento(raw: string): (e: Option<string>)
    requires |raw| == 10
    ensures e.Some? <==> AllDigits(raw)
  {
    if AllDigits(raw) then Some(NatToString(DigitsValue(raw))) else None
  }

  /** The event is the field's number, written without leading zeros. */
  lemma BankEventoValue(raw: string)
    requires |raw| == 10 && AllDigits(raw)
    ensures BankEvento(raw).Some?
    ensures AllDigits(BankEvento(raw).value)
    ensures DigitsValue(BankEvento(raw).value) == DigitsValue(raw)
    ensures BankEvento(raw).value[0] != '0' || BankEvento(raw).value == "0"
  {
    NatToStringValue(DigitsValue(raw));
  }

  /** `parseBankLine(line, lineNo)`. */
  function ParseBankLine(line: string, lineNo: nat): (r: LineResult)
    ensures r == LineResult(None, None) <==> AllSpace(RemoveLineBreaks(line))
    ensures r.row.Some? ==> r.diag.None?
    ensures r.row.Some? ==> (r.row.value.source == Banco
      && r.row.value.meta.confidence == Some(High)
      && r.row.value.rawRef == RawRef(Some(lineNo), None, Some(RemoveLineBreaks(line))))
  {
    var c := RemoveLineBreaks(line);
    if Trim(c) == [] then LineResult(None, None)
    else if c[0] == '1' then
      LineResult(None, Some(Diag(Info, "BANK_HEADER", map["lineNo" := lineNo])))
    else if c[0] == '2' then
      if |c| < MinLineLength then
        LineResult(None, Some(Diag(Error, "BANK_LINE_TOO_SHORT",
          map["lineNo" := lineNo, "length" := |c|])))
      else if !AllDigits(c[22..34]) then
        LineResult(None, Some(Diag(Error, "BANK_INVALID_MATRICULA", map["lineNo" := lineNo])))
      else if !AllDigits(c[50..57]) then
        LineResult(None, Some(Diag(Error, "BANK_INVALID_VALOR", map["lineNo" := lineNo])))
      else
        var meta := Meta(BankCompetencia(c[44..50]), BankEvento(c[34..44]), Some(High), None, None);
        LineResult(Some(Row(Banco, BankMatricula(c[22..34]), DigitsValue(c[50..57]), None, None,
          meta, RawRef(Some(lineNo), None, Some(c)))), None)
    else
      LineResult(None, Some(Diag(Warn, "BANK_UNKNOWN_LINE_TYPE", map["lineNo" := lineNo])))
  }

  /** A header line yields only an info BANK_HEADER diagnostic. */
  lemma HeaderLine(line: string, lineNo: nat)
    requires var c := RemoveLineBreaks(line); c != [] && c[0] == '1'
    ensures ParseBankLine(line, lineNo).row.None?
    ensures ParseBankLine(line, lineNo).diag
        == Some(Diag(Info, "BANK_HEADER", map["lineNo" := lineNo]))
  {
    assert !IsSpace('1');
  }

  /** A non-blank line whose type is neither '1' nor '2' yields a warning. */
  lemma UnknownLine(line: string, lineNo: nat)
    requires var c := RemoveLineBreaks(line); !AllSpace(c) && c[0] != '1' && c[0] != '2'
    ensures ParseBankLine(line, lineNo)
        == LineResult(None, Some(Diag(Warn, "BANK_UNKNOWN_LINE_TYPE", map["lineNo" := lineNo])))
  {
  }

  /** A type-2 line is checked for length, then matricula, then amount; the
      first failing check names the error and no row is produced. */
  lemma DataLineChecks(line: string, lineNo: nat)
    requires var c := RemoveLineBreaks(line); c != [] && c[0] == '2'
    ensures var c := RemoveLineBreaks(line); var r := ParseBankLine(line, lineNo);
      && (|c| < 57 ==>
            (r.row.None? && r.diag.Some? && r.diag.value.severity == Error
             && r.diag.value.code == "BANK_LINE_TOO_SHORT" && r.diag.value.details["length"] == |c|))
      && (|c| >= 57 && !AllDigits(c[22..34]) ==>
            (r.row.None? && r.diag == Some(Diag(Error, "BANK_INVALID_MATRICULA", map["lineNo" := lineNo]))))
      && (|c| >= 57 && AllDigits(c[22..34]) && !AllDigits(c[50..57]) ==>
            (r.row.None? && r.diag == Some(Diag(Error, "BANK_INVALID_VALOR", map["lineNo" := lineNo]))))
  {
    assert !IsSpace('2');
  }

  /** A row appears exactly for a type-2 line of at least 57 characters
      whose matricula and amount fields are all digits. */
  lemma RowIff(line: string, lineNo: nat)
    ensures var c := RemoveLineBreaks(line);
      (ParseBankLine(line, lineNo).row.Some?
       <==> (c != [] && c[0] == '2' && |c| >= 57 && AllDigits(c[22..34]) && AllDigits(c[50..57])))
  {
    var c := RemoveLineBreaks(line);
    if c != [] && c[0] == '2' {
      assert !IsSpace('2');
      assert !AllSpace(c);
    }
  }

  /** The fields of a row: the amount in centavos is the number in 50..56,
      the matricula is the base-suffix rendering of 22..33, the competence
      comes from 44..49 and the event from 34..43. */
  lemma RowFields(line: string, lineNo: nat)
    requires ParseBankLine(line, lineNo).row.Some?
    ensures var c := RemoveLineBreaks(line); var row := ParseBankLine(line, lineNo).row.value;
      && |c| >= 57 && AllDigits(c[22..34]) && AllDigits(c[50..57])
      && row.cents == DigitsValue(c[50..57])
      && row.matricula == BankMatricula(c[22..34])
      && row.meta.competencia == BankCompetencia(c[44..50])
      && row.meta.evento == BankEvento(c[34..44])
      && row.nome.None? && row.cpf.None?
  {
    RowIff(line, lineNo);
  }

  /** The diagnostic of a line is one of the five per-line codes: the header
      notice (info), the three data-line errors, or the unknown-type warning. */
  lemma LineCodes(line: string, lineNo: nat)
    ensures var d := ParseBankLine(line, lineNo).diag;
      d.Some? ==>
        || (d.value.code == "BANK_HEADER" && d.value.severity == Info)
        || (d.value.code in {"BANK_LINE_TOO_SHORT", "BANK_INVALID_MATRICULA", "BANK_INVALID_VALOR"}
            && d.value.severity == Error)
        || (d.value.code == "BANK_UNKNOWN_LINE_TYPE" && d.value.severity == Warn)
  {
  }
}
