// The regular expressions the extractors match lines against, each written
// as a small recogniser: matricula numbers "85-1", pt-BR money "1.234,56",
// CPF "123.456.789-01", event markers "Evento: 002", competences "01/2026"
// and "012026", and the quoted money fields of the CSV report.
// Backtracking is resolved by hand: every pattern here has at most one way
// to match at a given position, and the functions compute that way.

module Patterns {
  import opened Domain
  import opened Text
  import opened Brl

  /** The first position in [p, n) where `at` holds. */
  function Leftmost(n: nat, at: nat -> bool, p: nat): (r: Option<nat>)
    requires p <= n
    ensures r.Some? ==> p <= r.value < n && at(r.value)
    ensures r.Some? ==> forall j :: p <= j < r.value ==> !at(j)
    ensures r.None? ==> forall j :: p <= j < n ==> !at(j)
    decreases n - p
  {
    if p == n then None else if at(p) then Some(p) else Leftmost(n, at, p + 1)
  }

  // ---------------------------------------------------------------------------
  // Matricula: \d{1,6}-\d{1,3}

  /** Text of the form `\d{1,6}-\d{1,3}`, e.g. "85-1", "278-1", "12345-123". */
  predicate IsMatriculaText(t: string) {
    var l := IndexOf(t, '-');
    1 <= l <= 6 && l < |t| && AllDigits(t[..l])
    && 1 <= |t| - l - 1 <= 3 && AllDigits(t[l + 1..])
  }

  /** Where `\d{1,6}-\d{1,3}` ends when matched at `p` and followed by a
      character that is not a digit (every use of the pattern requires that:
      a comma or a `\b` after it). The digit runs on both sides of the hyphen
      are taken whole, so a longer run is no match. */
  function MatriculaEnd(s: string, p: nat): (e: Option<nat>)
    requires p <= |s|
    ensures e.Some? ==> p < e.value <= |s| && IsMatriculaText(s[p..e.value])
    ensures e.Some? ==> e.value == |s| || !IsDigit(s[e.value])
  {
    var l := DigitRun(s, p);
    if 1 <= l <= 6 && p + l < |s| && s[p + l] == '-' then
      var m := DigitRun(s, p + l + 1);
      if 1 <= m <= 3 then
        var e := p + l + 1 + m;
        MatriculaSlice(s, p, l, m, e);
        Some(e)
      else None
    else None
  }

  /** Digits, a hyphen and digits, cut out of a longer string. */
  lemma MatriculaSlice(s: string, p: nat, l: nat, m: nat, e: nat)
    requires 1 <= l <= 6 && 1 <= m <= 3 && p + l < |s| && e == p + l + 1 + m
    requires DigitRun(s, p) == l && s[p + l] == '-' && DigitRun(s, p + l + 1) == m
    ensures e <= |s| && IsMatriculaText(s[p..e]) && (e == |s| || !IsDigit(s[e]))
  {
    var t := s[p..e];
    forall k | 0 <= k < |t| && k != l
      ensures IsDigit(t[k])
    {
      assert t[k] == s[p + k];
    }
    MatriculaIntro(t, l);
  }

  /** Digits, a hyphen at `l` and digits, in the lengths `\d{1,6}-\d{1,3}` allows. */
  lemma MatriculaIntro(t: string, l: nat)
    requires 1 <= l <= 6 && l < |t| && 1 <= |t| - l - 1 <= 3 && t[l] == '-'
    requires forall k :: 0 <= k < |t| && k != l ==> IsDigit(t[k])
    ensures IsMatriculaText(t)
  {
    assert IndexOf(t, '-') == l;
    assert AllDigits(t[..l]) by {
      forall k | 0 <= k < l
        ensures IsDigit(t[..l][k])
      {
        assert t[..l][k] == t[k];
      }
    }
    var d := t[l + 1..];
    assert AllDigits(d) by {
      forall k | 0 <= k < |d|
        ensures IsDigit(d[k])
      {
        assert d[k] == t[l + 1 + k];
      }
    }
  }

  /** Every matricula text followed by a non-digit is recognised, whole. */
  lemma MatriculaEndComplete(m: string, rest: string)
    requires IsMatriculaText(m)
    requires rest == [] || !IsDigit(rest[0])
    ensures MatriculaEnd(m + rest, 0) == Some(|m|)
  {
    var s := m + rest;
    var l := IndexOf(m, '-');
    assert forall k :: 0 <= k < |m| ==> s[k] == m[k];
    assert forall k :: 0 <= k < l ==> IsDigit(s[k]) by {
      forall k | 0 <= k < l ensures IsDigit(s[k]) {
        assert s[k] == m[..l][k];
      }
    }
    assert DigitRun(s, 0) == l by { DigitRunExact(s, 0, l); }
    assert forall k :: l + 1 <= k < |m| ==> IsDigit(s[k]) by {
      forall k | l + 1 <= k < |m| ensures IsDigit(s[k]) {
        assert s[k] == m[l + 1..][k - l - 1];
      }
    }
    assert DigitRun(s, l + 1) == |m| - l - 1 by { DigitRunExact(s, l + 1, |m| - l - 1); }
  }

  /** A run of exactly `n` digits at `p`, ended by the end or a non-digit. */
  lemma {:induction false} DigitRunExact(s: string, p: nat, n: nat)
    requires p + n <= |s|
    requires forall k :: p <= k < p + n ==> IsDigit(s[k])
    requires p + n == |s| || !IsDigit(s[p + n])
    ensures DigitRun(s, p) == n
    decreases n
  {
    if n > 0 {
      DigitRunExact(s, p + 1, n - 1);
    }
  }

  /** `^(\d{1,6}-\d{1,3}),` (the CSV report's data lines): the matricula
      that starts the line and is followed by a comma. */
  function CsvMatricula(line: string): (r: Option<string>)
    ensures r.Some? ==> IsMatriculaText(r.value) && |r.value| >= 3
    ensures r.Some? ==> |r.value| < |line| && line[..|r.value|] == r.value && line[|r.value|] == ','
  {
    match MatriculaEnd(line, 0)
    case Some(e) => if e < |line| && line[e] == ',' then Some(line[..e]) else None
    case None => None
  }

  /** ... and every line made of a matricula, a comma and anything is one. */
  lemma CsvMatriculaComplete(m: string, rest: string)
    requires IsMatriculaText(m)
    ensures CsvMatricula(m + ("," + rest)) == Some(m)
  {
    MatriculaEndComplete(m, "," + rest);
    assert (m + ("," + rest))[..|m|] == m;
  }

  /** A matricula match: where the whole match ends, and the captured text. */
  datatype Match = Match(end: nat, text: string)

  /** `^\s*(\d{1,6}-\d{1,3})\b`. */
  function MatriculaStart(s: string): (r: Option<Match>)
    ensures r.Some? ==> r.value.end <= |s| && IsMatriculaText(r.value.text)
    ensures r.Some? ==> BoundaryAfter(s, r.value.end)
    ensures r.Some? ==> |r.value.text| <= r.value.end
    ensures r.Some? ==>
      var q := r.value.end - |r.value.text|;
      AllSpace(s[..q]) && s[q..r.value.end] == r.value.text
  {
    var q := SkipSpaces(s, 0);
    match MatriculaEnd(s, q)
    case Some(e) =>
      if BoundaryAfter(s, e) then
        assert AllSpace(s[..q]) by {
          forall k | 0 <= k < q ensures IsSpace(s[..q][k]) {
            assert s[..q][k] == s[k];
          }
        }
        Some(Match(e, s[q..e]))
      else None
    case None => None
  }

  /** A `\b`-delimited matricula at `p`: `\b(\d{1,6}-\d{1,3})\b`. */
  predicate MatriculaBoundedAt(s: string, p: nat) {
    p <= |s| && BoundaryBefore(s, p)
    && match MatriculaEnd(s, p)
       case Some(e) => BoundaryAfter(s, e)
       case None => false
  }

  /** `\b(\d{1,6}-\d{1,3})\b` anywhere: the leftmost such matricula. */
  function MatriculaAnywhere(s: string): (r: Option<string>)
    ensures r.Some? ==> IsMatriculaText(r.value)
    ensures r.None? ==> forall p :: 0 <= p < |s| ==> !MatriculaBoundedAt(s, p)
  {
    var at := (k: nat) => MatriculaBoundedAt(s, k);
    assert forall k: nat :: at(k) == MatriculaBoundedAt(s, k);
    match Leftmost(|s|, at, 0)
    case Some(p) => Some(s[p..MatriculaEnd(s, p).value])
    case None => None
  }

  /** A matricula that starts a line (after optional white space) is also
      found anywhere: the anywhere search never fails where the start one
      succeeds. */
  lemma StartImpliesAnywhere(s: string)
    requires MatriculaStart(s).Some?
    ensures MatriculaAnywhere(s).Some?
  {
    var q := SkipSpaces(s, 0);
    assert MatriculaEnd(s, q).Some?;
    assert IsDigit(s[q]);
    assert BoundaryBefore(s, q);
    assert MatriculaBoundedAt(s, q);
  }

  // ---------------------------------------------------------------------------
  // pt-BR money: \b(\d{1,3}(?:\.\d{3})*,\d{2})\b

  /** The end of the greedy `(?:\.\d{3})*` that starts at `q`. */
  function GroupsEnd(s: string, q: nat): (r: nat)
    requires q <= |s|
    ensures q <= r <= |s|
    ensures forall k :: q <= k < r ==> IsDigit(s[k]) || s[k] == '.'
    decreases |s| - q
  {
    if q + 4 <= |s| && s[q] == '.' && IsDigit(s[q + 1]) && IsDigit(s[q + 2]) && IsDigit(s[q + 3])
    then GroupsEnd(s, q + 4)
    else q
  }

  /** Where a money match starting at `p` ends. The integer part must be a
      whole run of one to three digits, the groups are taken greedily, and a
      comma, two digits and a `\b` must follow. */
  function MoneyAt(s: string, p: nat): (e: Option<nat>)
    requires p <= |s|
    ensures e.Some? ==> p < e.value <= |s| && IsMoneyText(s[p..e.value])
  {
    var r := DigitRun(s, p);
    if BoundaryBefore(s, p) && 1 <= r <= 3 then
      var g := GroupsEnd(s, p + r);
      if g + 3 <= |s| && s[g] == ',' && IsDigit(s[g + 1]) && IsDigit(s[g + 2])
         && BoundaryAfter(s, g + 3)
      then
        var t := s[p..g + 3];
        assert forall i :: 0 <= i < |t| - 3 ==> IsDigit(t[i]) || t[i] == '.' by {
          forall i | 0 <= i < |t| - 3 ensures IsDigit(t[i]) || t[i] == '.' {
            assert t[i] == s[p + i];
          }
        }
        Some(g + 3)
      else None
    else None
  }

  /** `line.match(VALOR_BR_REGEX)` with the `g` flag: every match, left to
      right, the search resuming after each match. */
  function MoneyMatchesFrom(s: string, p: nat): (ms: seq<string>)
    requires p <= |s|
    ensures forall i :: 0 <= i < |ms| ==> IsMoneyText(ms[i])
    decreases |s| - p
  {
    if p == |s| then []
    else
      match MoneyAt(s, p)
      case Some(e) => [s[p..e]] + MoneyMatchesFrom(s, e)
      case None => MoneyMatchesFrom(s, p + 1)
  }

  function MoneyMatches(s: string): (ms: seq<string>)
    ensures forall i :: 0 <= i < |ms| ==> IsMoneyText(ms[i])
  {
    MoneyMatchesFrom(s, 0)
  }

  /** Every money match reads back, through parseBRL, as the amount its
      digits spell. */
  lemma MoneyMatchesParse(s: string, i: nat)
    requires i < |MoneyMatches(s)|
    ensures IsMoneyText(MoneyMatches(s)[i])
    ensures ParseBRL(MoneyMatches(s)[i]) == Some(MoneyCents(MoneyMatches(s)[i]))
  {
    MoneyTextValue(MoneyMatches(s)[i]);
  }

  // ---------------------------------------------------------------------------
  // CPF: \d{3}\.\d{3}\.\d{3}-\d{2}

  predicate DigitsAt(s: string, p: nat, n: nat) {
    p + n <= |s| && forall k :: p <= k < p + n ==> IsDigit(s[k])
  }

  /** A CPF "ddd.ddd.ddd-dd" at `p` (no word boundaries). */
  predicate CpfAt(s: string, p: nat) {
    p + 14 <= |s| && DigitsAt(s, p, 3) && s[p + 3] == '.' && DigitsAt(s, p + 4, 3)
    && s[p + 7] == '.' && DigitsAt(s, p + 8, 3) && s[p + 11] == '-' && DigitsAt(s, p + 12, 2)
  }

  /** The position of the leftmost CPF. */
  function FindCpf(s: string): (r: Option<nat>)
    ensures r.Some? ==> CpfAt(s, r.value)
    ensures r.Some? ==> forall k :: 0 <= k < r.value ==> !CpfAt(s, k)
    ensures r.None? ==> forall k :: 0 <= k < |s| ==> !CpfAt(s, k)
  {
    var at := (k: nat) => CpfAt(s, k);
    assert forall k: nat :: at(k) == CpfAt(s, k);
    Leftmost(|s|, at, 0)
  }

  // ---------------------------------------------------------------------------
  // Event markers: /Evento:\s*(\d{1,n})/i

  /** The digits an event marker at `p` captures: "Evento:" in any case,
      white space, then the first one to `maxDigits` digits of a digit run.
      The white space is taken whole, so a marker not followed by a digit is
      no match. */
  function EventoAt(s: string, p: nat, maxDigits: nat): (r: Option<string>)
    requires maxDigits >= 1
    ensures r.Some? ==> 1 <= |r.value| <= maxDigits && AllDigits(r.value)
  {
    if MatchesFoldedAt(s, p, "Evento:") then
      var q := SkipSpaces(s, p + 7);
      var d := DigitRun(s, q);
      if d >= 1 then
        var n := if d < maxDigits then d else maxDigits;
        var c := s[q..q + n];
        assert forall k :: 0 <= k < n ==> c[k] == s[q + k];
        Some(c)
      else None
    else None
  }

  /** The capture of the leftmost event marker. */
  function FindEvento(s: string, maxDigits: nat): (r: Option<string>)
    requires maxDigits >= 1
    ensures r.Some? ==> 1 <= |r.value| <= maxDigits && AllDigits(r.value)
    ensures r.None? ==> forall p :: 0 <= p < |s| ==> EventoAt(s, p, maxDigits).None?
  {
    var at := (k: nat) => EventoAt(s, k, maxDigits).Some?;
    assert forall k: nat :: at(k) == EventoAt(s, k, maxDigits).Some?;
    match Leftmost(|s|, at, 0)
    case Some(p) => EventoAt(s, p, maxDigits)
    case None => None
  }

  // ---------------------------------------------------------------------------
  // Competence: \b(\d{2})\/(\d{4})\b, then \b(0[1-9]|1[0-2])(\d{4})\b

  predicate SlashAt(s: string, p: nat) {
    p + 7 <= |s| && BoundaryBefore(s, p) && DigitsAt(s, p, 2) && s[p + 2] == '/'
    && DigitsAt(s, p + 3, 4) && BoundaryAfter(s, p + 7)
  }

  /** A month 01..12 written with two digits. */
  predicate IsMonth(a: char, b: char) {
    (a == '0' && '1' <= b <= '9') || (a == '1' && '0' <= b <= '2')
  }

  predicate CompactAt(s: string, p: nat) {
    p + 6 <= |s| && BoundaryBefore(s, p) && IsMonth(s[p], s[p + 1])
    && DigitsAt(s, p + 2, 4) && BoundaryAfter(s, p + 6)
  }

  /** The leftmost position of the slash form. */
  function FirstSlash(s: string): (r: Option<nat>)
    ensures r.Some? ==> r.value < |s| && SlashAt(s, r.value)
    ensures r.Some? ==> forall j :: 0 <= j < r.value ==> !SlashAt(s, j)
    ensures r.None? ==> forall j :: 0 <= j < |s| ==> !SlashAt(s, j)
  {
    var at := (k: nat) => SlashAt(s, k);
    assert forall k: nat :: at(k) == SlashAt(s, k);
    Leftmost(|s|, at, 0)
  }

  /** The leftmost position of the compact form. */
  function FirstCompact(s: string): (r: Option<nat>)
    ensures r.Some? ==> r.value < |s| && CompactAt(s, r.value)
    ensures r.Some? ==> forall j :: 0 <= j < r.value ==> !CompactAt(s, j)
    ensures r.None? ==> forall j :: 0 <= j < |s| ==> !CompactAt(s, j)
  {
    var at := (k: nat) => CompactAt(s, k);
    assert forall k: nat :: at(k) == CompactAt(s, k);
    Leftmost(|s|, at, 0)
  }

  /** A competence "MM/YYYY": two digits, a slash, four digits. */
  predicate IsCompetenciaText(c: string) {
    |c| == 7 && DigitsAt(c, 0, 2) && c[2] == '/' && DigitsAt(c, 3, 4)
  }

  /** `detectCompetencia`: the leftmost "MM/YYYY", else the leftmost
      "MMYYYY" with a valid month, rendered "MM/YYYY". */
  function DetectCompetencia(s: string): (r: Option<string>)
    ensures r.Some? ==> IsCompetenciaText(r.value)
  {
    match FirstSlash(s)
    case Some(p) =>
      var c := s[p..p + 2] + "/" + s[p + 3..p + 7];
      assert forall k :: 0 <= k < 2 ==> c[k] == s[p + k];
      assert forall k :: 3 <= k < 7 ==> c[k] == s[p + k];
      Some(c)
    case None =>
      match FirstCompact(s)
      case Some(p) =>
        var c := s[p..p + 2] + "/" + s[p + 2..p + 6];
        assert forall k :: 0 <= k < 2 ==> c[k] == s[p + k];
        assert forall k :: 3 <= k < 7 ==> c[k] == s[p + k - 1];
        Some(c)
      case None => None
  }

  /** The slash form wins wherever it occurs, even after a compact one; and
      the result is None exactly when neither form occurs. */
  lemma DetectCompetenciaPrecedence(s: string, p: nat)
    requires SlashAt(s, p)
    ensures exists q :: (0 <= q <= p && SlashAt(s, q)
      && DetectCompetencia(s) == Some(s[q..q + 2] + "/" + s[q + 3..q + 7]))
  {
    var q := FirstSlash(s).value;
    assert 0 <= q <= p && SlashAt(s, q);
  }

  lemma DetectCompetenciaNone(s: string)
    ensures DetectCompetencia(s).None? <==>
      forall p :: 0 <= p < |s| ==> !SlashAt(s, p) && !CompactAt(s, p)
  {
    if DetectCompetencia(s).None? {
      assert FirstSlash(s).None? && FirstCompact(s).None?;
    }
  }

  /** A compact competence, when it is the one found, has a month 01..12. */
  lemma CompactMonth(s: string)
    requires forall p :: 0 <= p < |s| ==> !SlashAt(s, p)
    requires DetectCompetencia(s).Some?
    ensures IsMonth(DetectCompetencia(s).value[0], DetectCompetencia(s).value[1])
  {
    assert FirstSlash(s).None?;
  }

  // ---------------------------------------------------------------------------
  // Quoted CSV money fields: /"([\d.,]+)"/g

  predicate IsNumChar(c: char) { IsDigit(c) || c == '.' || c == ',' }

  /** The length of the run of digits, points and commas at `p`. */
  function NumRun(s: string, p: nat): (n: nat)
    requires p <= |s|
    ensures p + n <= |s|
    ensures forall k :: p <= k < p + n ==> IsNumChar(s[k])
    ensures p + n == |s| || !IsNumChar(s[p + n])
    decreases |s| - p
  {
    if p < |s| && IsNumChar(s[p]) then 1 + NumRun(s, p + 1) else 0
  }

  /** The closing quote of a quoted field opening at `p`. The class run is
      taken whole, so the character after it must be the closing quote. */
  function QuotedAt(s: string, p: nat): (c: Option<nat>)
    requires p <= |s|
    ensures c.Some? ==> p + 1 < c.value < |s| && s[p] == '"' && s[c.value] == '"'
    ensures c.Some? ==> forall k :: p < k < c.value ==> IsNumChar(s[k])
  {
    if p < |s| && s[p] == '"' then
      var n := NumRun(s, p + 1);
      if n >= 1 && p + 1 + n < |s| && s[p + 1 + n] == '"' then Some(p + 1 + n) else None
    else None
  }

  /** The captures of every quoted field, left to right, the search resuming
      after each closing quote. */
  function QuotedFrom(s: string, p: nat): (qs: seq<string>)
    requires p <= |s|
    ensures forall i :: 0 <= i < |qs| ==> |qs[i]| >= 1
    ensures forall i, k :: 0 <= i < |qs| && 0 <= k < |qs[i]| ==> IsNumChar(qs[i][k])
    decreases |s| - p
  {
    if p == |s| then []
    else
      match QuotedAt(s, p)
      case Some(c) =>
        var q := s[p + 1..c];
        assert forall k :: 0 <= k < |q| ==> q[k] == s[p + 1 + k];
        [q] + QuotedFrom(s, c + 1)
      case None => QuotedFrom(s, p + 1)
  }

  function QuotedFields(s: string): (qs: seq<string>)
    ensures forall i :: 0 <= i < |qs| ==> |qs[i]| >= 1
  {
    QuotedFrom(s, 0)
  }
}
