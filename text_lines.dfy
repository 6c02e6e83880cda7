// What the free-text report extractor
// (src/core/prefeitura/connectors/text/parseTextReport.ts) reads off one
// trimmed line: the event code, the amounts and the one chosen among them,
// the worker's name and CPF, whether the line is a page header, and whether
// a line that starts with a matricula holds nothing else of note.

module TextLines {
  import opened Domain
  import opened Text
  import opened Brl
  import opened Patterns

  // ---------------------------------------------------------------------------
  // Event codes: /Evento:\s*(\d{1,4})/i, padded to three digits

  /** The event code a line announces: the one to four digits after the
      first "Evento:" marker, padded with zeros to at least three. */
  function TextEvent(t: string): (e: Option<string>)
    ensures e.Some? ==> 3 <= |e.value| <= 4 && AllDigits(e.value)
  {
    match FindEvento(t, 4)
    case Some(d) =>
      var code := PadStart3(d);
      assert forall k :: |code| - |d| <= k < |code| ==> code[k] == d[k - (|code| - |d|)] by {
        assert code[|code| - |d|..] == d;
        forall k | |code| - |d| <= k < |code| ensures code[k] == d[k - (|code| - |d|)] {
          assert code[k] == code[|code| - |d|..][k - (|code| - |d|)];
        }
      }
      Some(code)
    case None => None
  }

  /** The code is the captured digits behind leading zeros only, so it
      denotes the same number; without a marker there is no code. */
  lemma TextEventValue(t: string)
    ensures FindEvento(t, 4).None? <==> TextEvent(t).None?
    ensures FindEvento(t, 4).Some? ==>
      var d := FindEvento(t, 4).value; var e := TextEvent(t).value;
      && e[|e| - |d|..] == d
      && (forall i :: 0 <= i < |e| - |d| ==> e[i] == '0')
      && DigitsValue(e) == DigitsValue(d)
  {
    if FindEvento(t, 4).Some? {
      var d := FindEvento(t, 4).value;
      var e := PadStart3(d);
      var z := e[..|e| - |d|];
      assert e == z + d;
      DigitsValueLeadingZeros(z, d);
    }
  }

  // ---------------------------------------------------------------------------
  // Amounts: every pt-BR money match, read with parseBRL

  /** `ms.map(parse).filter(v => v !== null)`. */
  function ParsedAll(parse: string -> Option<int>, ms: seq<string>): (vs: seq<int>)
    ensures |vs| <= |ms|
  {
    if ms == [] then []
    else
      ParsedAll(parse, ms[..|ms| - 1])
      + (match parse(ms[|ms| - 1]) case Some(v) => [v] case None => [])
  }

  /** The amounts of a line, in the order they appear. */
  function Valores(t: string): seq<int> {
    ParsedAll(ParseBRL, MoneyMatches(t))
  }

  /** When every text reads, the filter drops nothing. */
  lemma {:induction false} ParsedAllSome(parse: string -> Option<int>, ms: seq<string>)
    requires forall i :: 0 <= i < |ms| ==> parse(ms[i]).Some?
    ensures |ParsedAll(parse, ms)| == |ms|
    ensures forall i :: 0 <= i < |ms| ==> ParsedAll(parse, ms)[i] == parse(ms[i]).value
  {
    if ms != [] {
      var init := ms[..|ms| - 1];
      assert forall i :: 0 <= i < |init| ==> init[i] == ms[i];
      ParsedAllSome(parse, init);
    }
  }

  /** A line has one amount per money match, each the amount the match
      denotes; none is negative. */
  lemma ValoresAll(t: string)
    ensures |Valores(t)| == |MoneyMatches(t)|
    ensures forall i :: 0 <= i < |Valores(t)| ==>
      Valores(t)[i] == MoneyCents(MoneyMatches(t)[i]) && Valores(t)[i] >= 0
  {
    var ms := MoneyMatches(t);
    forall i | 0 <= i < |ms| ensures ParseBRL(ms[i]) == Some(MoneyCents(ms[i])) {
      MoneyMatchesParse(t, i);
    }
    ParsedAllSome(ParseBRL, ms);
  }

  // ---------------------------------------------------------------------------
  // chooseValue

  /** `valores.filter(v => v > 0)`. */
  function Positives(vs: seq<int>): seq<int> {
    if vs == [] then []
    else Positives(vs[..|vs| - 1]) + (if vs[|vs| - 1] > 0 then [vs[|vs| - 1]] else [])
  }

  /** The position of the last positive value, if there is one. */
  function LastPositive(vs: seq<int>): (k: Option<nat>)
    ensures k.Some? ==> k.value < |vs| && vs[k.value] > 0
    ensures k.Some? ==> forall j :: k.value < j < |vs| ==> vs[j] <= 0
    ensures k.None? ==> forall j :: 0 <= j < |vs| ==> vs[j] <= 0
  {
    if vs == [] then None
    else if vs[|vs| - 1] > 0 then Some(|vs| - 1)
    else
      var init := vs[..|vs| - 1];
      assert forall j :: 0 <= j < |init| ==> init[j] == vs[j];
      LastPositive(init)
  }

  /** The filter is empty exactly when no value is positive, and otherwise
      ends with the last positive value. */
  lemma {:induction false} PositivesLast(vs: seq<int>)
    ensures Positives(vs) == [] <==> LastPositive(vs).None?
    ensures Positives(vs) != [] ==> Positives(vs)[|Positives(vs)| - 1] == vs[LastPositive(vs).value]
  {
    if vs != [] {
      var init := vs[..|vs| - 1];
      PositivesLast(init);
      if vs[|vs| - 1] <= 0 {
        assert Positives(vs) == Positives(init);
        assert LastPositive(vs) == LastPositive(init);
        if LastPositive(init).Some? {
          assert init[LastPositive(init).value] == vs[LastPositive(init).value];
        }
      }
    }
  }

  /** `chooseValue`: no value gives nothing, a single value is taken as it
      is, and among several the last positive one wins, or the last one
      when none is positive. */
  function ChooseValue(valores: seq<int>): (v: Option<int>)
    ensures v.None? <==> valores == []
  {
    if |valores| == 0 then None
    else if |valores| == 1 then Some(valores[0])
    else
      var nonZero := Positives(valores);
      if |nonZero| == 0 then Some(valores[|valores| - 1])
      else Some(nonZero[|nonZero| - 1])
  }

  /** The chosen value is the only one, else the last positive one, else
      the last one; it is always one of the values. */
  lemma ChooseValueSpec(valores: seq<int>)
    ensures |valores| == 1 ==> ChooseValue(valores) == Some(valores[0])
    ensures |valores| >= 2 && LastPositive(valores).Some? ==>
      ChooseValue(valores) == Some(valores[LastPositive(valores).value])
    ensures |valores| >= 2 && LastPositive(valores).None? ==>
      ChooseValue(valores) == Some(valores[|valores| - 1])
    ensures ChooseValue(valores).Some? ==> ChooseValue(valores).value in valores
  {
    var n := |valores|;
    if n == 1 {
      assert ChooseValue(valores) == Some(valores[0]);
    } else if n >= 2 {
      PositivesLast(valores);
      var i := if LastPositive(valores).Some? then LastPositive(valores).value else n - 1;
      assert ChooseValue(valores) == Some(valores[i]);
      assert valores[i] in valores;
    }
  }

  // ---------------------------------------------------------------------------
  // extractNomeCpf

  /** A line has a CPF "ddd.ddd.ddd-dd" somewhere. */
  predicate HasCpf(t: string) {
    FindCpf(t).Some?
  }

  /** `b` with the match of `^\d{1,6}-\d{1,3}\s*` replaced by nothing: a matricula at the very start,
      its second digit group taken up to three digits, and the white space
      after it, removed. */
  function StripLeadingMatricula(b: string): (r: string)
    ensures |r| <= |b| && r == b[|b| - |r|..]
  {
    var l := DigitRun(b, 0);
    if 1 <= l <= 6 && l < |b| && b[l] == '-' then
      var m := DigitRun(b, l + 1);
      if m >= 1 then
        var e := l + 1 + (if m < 3 then m else 3);
        b[SkipSpaces(b, e)..]
      else b
    else b
  }

  /** A matricula, white space and a name lose the matricula and the white
      space. */
  lemma StripMatriculaName(m: string, sp: string, rest: string)
    requires IsMatriculaText(m)
    requires |sp| >= 1 && AllSpace(sp)
    requires rest == [] || !IsSpace(rest[0])
    ensures StripLeadingMatricula(m + sp + rest) == rest
  {
    var b := m + sp + rest;
    var l := IndexOf(m, '-');
    MatriculaBeforeSpace(m, sp, rest);
    SpacesAfter(m, sp, rest);
    StripAt(b, l, |m| - l - 1);
    DropFront(m, sp, rest);
  }

  /** A matricula followed by white space: its digit runs are read whole. */
  lemma MatriculaBeforeSpace(m: string, sp: string, rest: string)
    requires IsMatriculaText(m)
    requires |sp| >= 1 && AllSpace(sp)
    ensures var b := m + sp + rest; var l := IndexOf(m, '-');
      && 1 <= l <= 6 && l < |b| && b[l] == '-' && DigitRun(b, 0) == l
      && 1 <= |m| - l - 1 <= 3 && DigitRun(b, l + 1) == |m| - l - 1
  {
    assert m + sp + rest == m + (sp + rest);
    assert (sp + rest)[0] == sp[0];
    MatriculaRuns(m, sp + rest);
  }

  lemma DropFront(m: string, sp: string, rest: string)
    ensures (m + sp + rest)[|m| + |sp|..] == rest
  {
  }

  /** A matricula followed by a non-digit: the digit runs on both sides of
      its hyphen are read whole. */
  lemma MatriculaRuns(m: string, tail: string)
    requires IsMatriculaText(m)
    requires tail == [] || !IsDigit(tail[0])
    ensures var b := m + tail; var l := IndexOf(m, '-');
      && 1 <= l <= 6 && l < |b| && b[l] == '-' && DigitRun(b, 0) == l
      && 1 <= |m| - l - 1 <= 3 && DigitRun(b, l + 1) == |m| - l - 1
  {
    var b := m + tail;
    var l := IndexOf(m, '-');
    forall k | 0 <= k < l
      ensures IsDigit(b[k])
    {
      assert b[k] == m[..l][k];
    }
    DigitRunExact(b, 0, l);
    forall k | l + 1 <= k < |m|
      ensures IsDigit(b[k])
    {
      assert b[k] == m[l + 1..][k - l - 1];
    }
    DigitRunExact(b, l + 1, |m| - l - 1);
  }

  /** White space between a matricula and a name is skipped whole. */
  lemma SpacesAfter(m: string, sp: string, rest: string)
    requires |sp| >= 1 && AllSpace(sp)
    requires rest == [] || !IsSpace(rest[0])
    ensures SkipSpaces(m + sp + rest, |m|) == |m| + |sp|
  {
    var b := m + sp + rest;
    forall k | |m| <= k < |m| + |sp|
      ensures IsSpace(b[k])
    {
      assert b[k] == sp[k - |m|];
    }
    SkipSpacesExact(b, |m|, |sp|);
  }

  /** Digit runs of `l` and `mm` digits around a hyphen at the start: what
      follows the second run and its white space is kept. */
  lemma StripAt(b: string, l: nat, mm: nat)
    requires 1 <= l <= 6 && l < |b| && b[l] == '-' && DigitRun(b, 0) == l
    requires 1 <= mm <= 3 && DigitRun(b, l + 1) == mm
    ensures StripLeadingMatricula(b) == b[SkipSpaces(b, l + 1 + mm)..]
  {
  }

  /** A run of exactly `n` white-space characters at `p`. */
  lemma {:induction false} SkipSpacesExact(s: string, p: nat, n: nat)
    requires p + n <= |s|
    requires forall k :: p <= k < p + n ==> IsSpace(s[k])
    requires p + n == |s| || !IsSpace(s[p + n])
    ensures SkipSpaces(s, p) == p + n
    decreases n
  {
    if n > 0 {
      SkipSpacesExact(s, p + 1, n - 1);
    }
  }

  /** Text that does not start with a digit is left as it is. */
  lemma StripNoMatricula(b: string)
    requires b == [] || !IsDigit(b[0])
    ensures StripLeadingMatricula(b) == b
  {
  }

  /** The name and CPF a line carries. */
  datatype NomeCpf = NomeCpf(nome: Option<string>, cpf: Option<string>)

  /** `extractNomeCpf`: the first CPF of the line, and the text before it,
      trimmed and without a leading matricula, as the name when it is longer
      than two characters. */
  function ExtractNomeCpf(line: string): (r: NomeCpf)
    ensures r.nome.Some? ==> r.cpf.Some? && |r.nome.value| > 2
  {
    match FindCpf(line)
    case None => NomeCpf(None, None)
    case Some(p) =>
      var withoutMatricula := NomeBefore(line, p);
      NomeCpf(if |withoutMatricula| > 2 then Some(withoutMatricula) else None, Some(line[p..p + 14]))
  }

  /** The text before position `p`, trimmed, without a leading matricula,
      trimmed again. */
  function NomeBefore(line: string, p: nat): string
    requires p <= |line|
  {
    Trim(StripLeadingMatricula(Trim(line[..p])))
  }

  /** `n` occurs in `s` wholly before position `p`. */
  predicate OccursBefore(n: string, s: string, p: nat) {
    exists a :: 0 <= a && a + |n| <= p <= |s| && s[a..][..|n|] == n
  }

  /** A CPF starts at `p` and at no position before it. */
  predicate LeftmostCpf(line: string, p: nat) {
    CpfAt(line, p) && forall k :: 0 <= k < p ==> !CpfAt(line, k)
  }

  /** The CPF is the leftmost CPF-shaped text of the line, and is present
      exactly when there is one. */
  lemma ExtractCpfSpec(line: string)
    ensures ExtractNomeCpf(line).cpf.None? <==> forall k :: 0 <= k < |line| ==> !CpfAt(line, k)
    ensures ExtractNomeCpf(line).cpf.Some? ==>
      exists p: nat :: LeftmostCpf(line, p) && p + 14 <= |line| && ExtractNomeCpf(line).cpf.value == line[p..p + 14]
  {
    match FindCpf(line)
    case None =>
    case Some(p) =>
      assert LeftmostCpf(line, p) && p + 14 <= |line| && ExtractNomeCpf(line).cpf.value == line[p..p + 14];
  }

  /** The name, when there is one, is text that occurs in the line before
      its CPF, already trimmed. */
  lemma {:induction false} ExtractNomeSpec(line: string)
    requires ExtractNomeCpf(line).nome.Some?
    ensures FindCpf(line).Some? && OccursBefore(ExtractNomeCpf(line).nome.value, line, FindCpf(line).value)
    ensures Trim(ExtractNomeCpf(line).nome.value) == ExtractNomeCpf(line).nome.value
  {
    var p := FindCpf(line).value;
    NomeBeforeOccurs(line, p);
    TrimIdempotent(StripLeadingMatricula(Trim(line[..p])));
  }

  /** What NomeBefore keeps is text of the line before `p`. */
  lemma NomeBeforeOccurs(line: string, p: nat)
    requires p <= |line|
    ensures OccursBefore(NomeBefore(line, p), line, p)
  {
    var before := Trim(line[..p]);
    var stripped := StripLeadingMatricula(before);
    TrimOccurs(stripped);
    StripOccurs(before);
    OccursWithin(Trim(stripped), stripped, before, |before|);
    TrimOccurs(line[..p]);
    OccursWithin(Trim(stripped), before, line[..p], p);
    OccursAt(line[..p], line, p, 0);
    OccursWithin(Trim(stripped), line[..p], line, p);
  }

  lemma OccursAt(n: string, s: string, p: nat, a: nat)
    requires a + |n| <= p <= |s| && s[a..][..|n|] == n
    ensures OccursBefore(n, s, p)
  {
  }

  /** Trimming keeps a slice of the text. */
  lemma TrimOccurs(s: string)
    ensures OccursBefore(Trim(s), s, |s|)
  {
    var t := Trim(s);
    var a := TrimSlice(s, t);
    assert s[a..][..|t|] == s[a..a + |t|];
    OccursAt(t, s, |s|, a);
  }

  /** Removing a leading matricula keeps a suffix of the text. */
  lemma StripOccurs(s: string)
    ensures OccursBefore(StripLeadingMatricula(s), s, |s|)
  {
    var r := StripLeadingMatricula(s);
    assert s[|s| - |r|..][..|r|] == r;
    OccursAt(r, s, |s|, |s| - |r|);
  }

  /** Text inside text that lies wholly before `p` lies wholly before `p`. */
  lemma OccursWithin(n: string, m: string, s: string, p: nat)
    requires OccursBefore(n, m, |m|) && OccursBefore(m, s, p)
    ensures OccursBefore(n, s, p)
  {
    var a :| 0 <= a && a + |n| <= |m| && m[a..][..|n|] == n;
    var b :| 0 <= b && b + |m| <= p <= |s| && s[b..][..|m|] == m;
    forall k | 0 <= k < |n|
      ensures s[b + a..][..|n|][k] == n[k]
    {
      assert n[k] == m[a + k] == s[b + a + k];
    }
    OccursAt(n, s, p, b + a);
  }

  /** Where the trimmed text starts in the text it was trimmed from. */
  lemma TrimSlice(s: string, t: string) returns (a: nat)
    requires t == Trim(s)
    ensures a + |t| <= |s| && t == s[a..a + |t|]
  {
    var i := SkipSpaces(s, 0);
    if i == |s| {
      a := 0;
    } else {
      a := i;
    }
  }

  // ---------------------------------------------------------------------------
  // isHeaderLine

  /** The whole line is `w`, letters compared case-insensitively. */
  predicate IsFolded(t: string, w: string) {
    |t| == |w| && MatchesFoldedAt(t, 0, w)
  }

  /** `w` followed by white space and a character `follows` accepts: the
      `^w\s+\w+` and `^w\s+\d+` patterns. */
  predicate WordThenSpaceThen(t: string, w: string, follows: char -> bool) {
    MatchesFoldedAt(t, 0, w)
    && var q := SkipSpaces(t, |w|); q > |w| && q < |t| && follows(t[q])
  }

  /** `^--\s*\d+\s+of\s+\d+\s*--$`: the page marker a PDF conversion
      leaves, such as "-- 2 of 10 --". */
  predicate IsPageMarker(t: string) {
    |t| >= 2 && t[0] == '-' && t[1] == '-'
    && var p1 := SkipSpaces(t, 2);
    var d1 := DigitRun(t, p1);
    d1 >= 1
    && var s1 := SkipSpaces(t, p1 + d1);
    s1 > p1 + d1 && MatchesFoldedAt(t, s1, "of")
    && var s2 := SkipSpaces(t, s1 + 2);
    var d2 := DigitRun(t, s2);
    s2 > s1 + 2 && d2 >= 1
    && var e := SkipSpaces(t, s2 + d2);
    e + 2 == |t| && t[e] == '-' && t[e + 1] == '-'
  }

  /** `isHeaderLine`: one of the fifteen header patterns, all anchored at
      the start of the line and case-insensitive. */
  predicate IsHeaderLine(t: string) {
    || IsFolded(t, "Matrícula")
    || MatchesFoldedAt(t, 0, "Nome do Trabalhador")
    || MatchesFoldedAt(t, 0, "Relação de Trabalhadores")
    || MatchesFoldedAt(t, 0, "PREFEITURA MUNICIPAL")
    || WordThenSpaceThen(t, "RUA", IsWord)
    || MatchesFoldedAt(t, 0, "CNPJ:")
    || MatchesFoldedAt(t, 0, "Fiorilli")
    || MatchesFoldedAt(t, 0, "Mensal")
    || IsFolded(t, "Folha")
    || WordThenSpaceThen(t, "Página", IsDigit)
    || IsPageMarker(t)
    || MatchesFoldedAt(t, 0, "Total:")
    || MatchesFoldedAt(t, 0, "Referência")
    || MatchesFoldedAt(t, 0, "Qtde.")
    || IsFolded(t, "Valor")
  }

  /** No header starts with a digit, so a header never hides a line that
      starts with a matricula. */
  lemma HeaderNotDigit(t: string)
    requires IsHeaderLine(t)
    ensures t != [] && !IsDigit(t[0])
  {
    FoldedNotDigit(t, "Matrícula");
    FoldedNotDigit(t, "Nome do Trabalhador");
    FoldedNotDigit(t, "Relação de Trabalhadores");
    FoldedNotDigit(t, "PREFEITURA MUNICIPAL");
    FoldedNotDigit(t, "RUA");
    FoldedNotDigit(t, "CNPJ:");
    FoldedNotDigit(t, "Fiorilli");
    FoldedNotDigit(t, "Mensal");
    FoldedNotDigit(t, "Folha");
    FoldedNotDigit(t, "Página");
    FoldedNotDigit(t, "Total:");
    FoldedNotDigit(t, "Referência");
    FoldedNotDigit(t, "Qtde.");
    FoldedNotDigit(t, "Valor");
  }

  /** Text that matches a word not starting with a digit does not start
      with a digit. */
  lemma FoldedNotDigit(t: string, w: string)
    requires w != [] && !IsDigit(FoldChar(w[0]))
    ensures MatchesFoldedAt(t, 0, w) ==> t != [] && !IsDigit(t[0])
  {
  }

  // ---------------------------------------------------------------------------
  // Pure matricula lines

  /** A character of `[\d\/\s\.]`. */
  predicate IsNumericTailChar(c: char) {
    IsDigit(c) || c == '/' || IsSpace(c) || c == '.'
  }

  /** A line that starts with a matricula whose match ends at `end` holds a
      pure matricula when it is shorter than 50 characters or when what
      follows the matricula, trimmed, is one or more digits, slashes,
      spaces and points. Past the end of the line, `slice` gives "". */
  predicate IsShortOrNumeric(t: string, end: nat) {
    var resto := if end <= |t| then Trim(t[end..]) else [];
    |t| < 50 || (resto != [] && forall k :: 0 <= k < |resto| ==> IsNumericTailChar(resto[k]))
  }
}
