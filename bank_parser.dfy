// The whole bank file (src/core/bank/BankParser.ts, `parse`): the text is
// split into lines, every line goes through ParseBankLine, and the results
// are aggregated into rows, a capped list of diagnostics, a summary and the
// most frequent competence.

module BankParser {
  import opened Domain
  import opened Text
  import opened BankLine

  /** At most this many per-line error diagnostics are kept. */
  const ErrorCap: nat := 50

  /** More replacement characters than this in the UTF-8 decoding make the
      parser switch to the Latin-1 decoding. */
  const InvalidCharLimit: nat := 10

  /** What `parse` returns. */
  datatype BankParseResult = BankParseResult(
    rows: seq<Row>,
    diagnostics: seq<Diag>,
    competencia: Option<string>)

  // ---------------------------------------------------------------------------
  // Specification

  /** The number of occurrences of `c` in `s`. */
  function CountChar(s: string, c: char): (n: nat)
    ensures n <= |s|
    ensures n == 0 <==> c !in s
  {
    if s == [] then 0 else CountChar(s[..|s| - 1], c) + (if s[|s| - 1] == c then 1 else 0)
  }

  /** The text the parser reads: the UTF-8 decoding, unless it holds more
      than ten U+FFFD replacement characters. */
  function Content(utf8Text: string, latin1Text: string): string {
    if CountChar(utf8Text, '\U{FFFD}') > InvalidCharLimit then latin1Text else utf8Text
  }

  /** The per-line parser, taken as a parameter by the aggregation so that
      the aggregation's proofs do not depend on how a line is read; the
      parser proper is ParseBankLine. */
  type LineParser = (string, nat) -> LineResult

  /** The rows of the first `n` lines, in line order. */
  function LineRows(parseLine: LineParser, lines: seq<string>, n: nat): (rows: seq<Row>)
    requires n <= |lines|
    ensures |rows| <= n
  {
    if n == 0 then []
    else
      var r := parseLine(lines[n - 1], n);
      LineRows(parseLine, lines, n - 1) + (if r.row.Some? then [r.row.value] else [])
  }

  /** The diagnostics of the first `n` lines, in line order, none dropped. */
  function LineDiags(parseLine: LineParser, lines: seq<string>, n: nat): (ds: seq<Diag>)
    requires n <= |lines|
    ensures |ds| <= n
  {
    if n == 0 then []
    else
      var r := parseLine(lines[n - 1], n);
      LineDiags(parseLine, lines, n - 1) + (if r.diag.Some? then [r.diag.value] else [])
  }

  predicate IsHeader(d: Diag) { d.code == "BANK_HEADER" }

  /** A per-line error: the header notice aside, severity error. */
  predicate IsLineError(d: Diag) { !IsHeader(d) && d.severity == Error }

  function HeadersIn(ds: seq<Diag>): (n: nat)
    ensures n <= |ds|
  {
    if ds == [] then 0
    else HeadersIn(ds[..|ds| - 1]) + (if IsHeader(ds[|ds| - 1]) then 1 else 0)
  }

  function ErrorsIn(ds: seq<Diag>): (n: nat)
    ensures n <= |ds|
  {
    if ds == [] then 0
    else ErrorsIn(ds[..|ds| - 1]) + (if IsLineError(ds[|ds| - 1]) then 1 else 0)
  }

  /** The per-line errors among `ds`, in order. */
  function LineErrors(ds: seq<Diag>): (es: seq<Diag>)
    ensures |es| == ErrorsIn(ds)
    ensures forall i :: 0 <= i < |es| ==> IsLineError(es[i])
  {
    if ds == [] then []
    else
      var d := ds[|ds| - 1];
      LineErrors(ds[..|ds| - 1]) + (if IsLineError(d) then [d] else [])
  }

  /** The per-line diagnostics that are neither header notices nor errors
      (the unknown-line warnings), in order. */
  function Notices(ds: seq<Diag>): (ns: seq<Diag>)
    ensures |ns| <= |ds|
    ensures forall i :: 0 <= i < |ns| ==> !IsHeader(ns[i]) && !IsLineError(ns[i])
  {
    if ds == [] then []
    else
      var d := ds[|ds| - 1];
      Notices(ds[..|ds| - 1]) + (if IsHeader(d) || IsLineError(d) then [] else [d])
  }

  /** How many errors survive the cap. */
  function Shown(errors: nat): nat {
    if errors <= ErrorCap then errors else ErrorCap
  }

  /** The per-line diagnostics that survive aggregation: header notices are
      dropped, the errors after the fiftieth are dropped, the rest is kept in
      order. */
  function KeptDiags(ds: seq<Diag>): (kept: seq<Diag>)
    ensures |kept| <= |ds|
  {
    if ds == [] then []
    else
      var d := ds[|ds| - 1];
      KeptDiags(ds[..|ds| - 1])
      + (if IsHeader(d) || (IsLineError(d) && ErrorsIn(ds) > ErrorCap) then [] else [d])
  }

  /** The competences of `rows`, in row order, repetitions included. */
  function Comps(rows: seq<Row>): (cs: seq<string>)
    ensures |cs| <= |rows|
  {
    if rows == [] then []
    else
      var c := rows[|rows| - 1].meta.competencia;
      Comps(rows[..|rows| - 1]) + (if c.Some? then [c.value] else [])
  }

  /** The distinct elements of `s` in order of first appearance. */
  function FirstSeen(s: seq<string>): (ks: seq<string>)
    ensures |ks| <= |s|
  {
    if s == [] then []
    else
      var x := s[|s| - 1];
      var before := FirstSeen(s[..|s| - 1]);
      if x in before then before else before + [x]
  }

  /** FirstSeen lists every element of `s`, each once. */
  lemma {:induction false} FirstSeenMembers(s: seq<string>)
    ensures forall x :: x in FirstSeen(s) <==> x in s
    ensures forall i, j :: 0 <= i < j < |FirstSeen(s)| ==> FirstSeen(s)[i] != FirstSeen(s)[j]
  {
    if s != [] {
      var x := s[|s| - 1];
      FirstSeenMembers(s[..|s| - 1]);
      assert s == s[..|s| - 1] + [x];
      assert forall y :: y in s <==> y in s[..|s| - 1] || y == x;
    }
  }

  /** The running winner of the maximum search over `keys`: a key replaces
      the winner only when its count is strictly larger. */
  datatype Best = Best(comp: Option<string>, count: nat)

  function ModeOf(keys: seq<string>, counts: map<string, nat>): (b: Best)
    requires forall k :: k in keys ==> k in counts
    ensures b.comp.None? ==> b.count == 0
    ensures b.comp.Some? ==> b.comp.value in keys && counts[b.comp.value] == b.count
    ensures forall k :: k in keys ==> counts[k] <= b.count
  {
    if keys == [] then Best(None, 0)
    else
      var b := ModeOf(keys[..|keys| - 1], counts);
      var k := keys[|keys| - 1];
      assert forall x :: x in keys ==> x in keys[..|keys| - 1] || x == k;
      if counts[k] > b.count then Best(Some(k), counts[k]) else b
  }

  /** The competence counter `parse` keeps: one entry per competence seen,
      bumped once for each row that carries it. */
  function CompCounts(rows: seq<Row>): (m: map<string, nat>)
  {
    if rows == [] then map[]
    else
      var m := CompCounts(rows[..|rows| - 1]);
      var c := rows[|rows| - 1].meta.competencia;
      if c.Some? then m[c.value := (if c.value in m then m[c.value] else 0) + 1] else m
  }

  /** The counter has an entry for exactly the competences that occur. */
  lemma {:induction false} CompCountsDomain(rows: seq<Row>)
    ensures forall c :: c in CompCounts(rows) <==> c in Comps(rows)
  {
    if rows != [] {
      var prefix, row := rows[..|rows| - 1], rows[|rows| - 1];
      assert prefix + [row] == rows;
      CompCountsDomain(prefix);
      CompsStep(prefix, row);
    }
  }

  /** The counter holds, for each competence, how many rows carry it. */
  lemma {:induction false} CompCountsAreFrequencies(rows: seq<Row>)
    ensures forall c :: c in CompCounts(rows) ==> CompCounts(rows)[c] == multiset(Comps(rows))[c]
  {
    if rows != [] {
      var prefix, row := rows[..|rows| - 1], rows[|rows| - 1];
      assert prefix + [row] == rows;
      CompCountsAreFrequencies(prefix);
      CompCountsDomain(prefix);
      CompsStep(prefix, row);
      var cs := Comps(prefix);
      var c := row.meta.competencia;
      if c.Some? {
        assert multiset(cs + [c.value]) == multiset(cs) + multiset{c.value};
        forall y | y in CompCounts(rows)
          ensures CompCounts(rows)[y] == multiset(Comps(rows))[y]
        {
          if y !in CompCounts(prefix) {
            assert y !in cs;
          }
        }
      }
    }
  }

  /** The competence `parse` reports for `rows`. */
  function Mode(rows: seq<Row>): Option<string> {
    FirstSeenMembers(Comps(rows));
    CompCountsDomain(rows);
    ModeOf(FirstSeen(Comps(rows)), CompCounts(rows)).comp
  }

  /** The diagnostics `parse` returns: the header count first, then the
      encoding notice, the kept line diagnostics, the summary and, past the
      cap, the truncation notice. */
  function Assemble(invalidChars: nat, kept: seq<Diag>, headers: nat, errors: nat,
                    totalLines: nat, validCount: nat): (out: seq<Diag>)
  {
    (if headers > 0 then [HeaderCountDiag(headers)] else [])
    + (if invalidChars > InvalidCharLimit then [FallbackDiag(invalidChars)] else [])
    + kept
    + [SummaryDiag(totalLines, validCount, errors, headers)]
    + (if errors > ErrorCap then [TruncatedDiag(errors)] else [])
  }

  function HeaderCountDiag(headers: nat): Diag {
    Diag(Info, "BANK_HEADER_COUNT", map["headerCount" := headers])
  }

  function FallbackDiag(invalidChars: nat): Diag {
    Diag(Info, "BANK_ENCODING_FALLBACK", map["invalidChars" := invalidChars])
  }

  function SummaryDiag(totalLines: nat, validCount: nat, errors: nat, headers: nat): Diag {
    Diag(if errors > 0 then Warn else Info, "BANK_PARSE_SUMMARY",
      map["totalLines" := totalLines, "validCount" := validCount,
          "errorCount" := errors, "headerCount" := headers])
  }

  function TruncatedDiag(errors: nat): Diag {
    Diag(Warn, "BANK_ERRORS_TRUNCATED", map["totalErrors" := errors, "shown" := ErrorCap])
  }

  /** The result `parse` must produce for the two decodings of a file. */
  function Expected(parseLine: LineParser, utf8Text: string, latin1Text: string): BankParseResult {
    var lines := SplitLines(Content(utf8Text, latin1Text));
    var rows := LineRows(parseLine, lines, |lines|);
    BankParseResult(
      rows,
      var ds := LineDiags(parseLine, lines, |lines|);
      Assemble(CountChar(utf8Text, '\U{FFFD}'), KeptDiags(ds), HeadersIn(ds), ErrorsIn(ds),
        |lines|, |rows|),
      Mode(rows))
  }

  // ---------------------------------------------------------------------------
  // The parser

  /** `BankParser.parse`, given the file decoded as UTF-8 and as Latin-1. */
  method Parse(utf8Text: string, latin1Text: string) returns (res: BankParseResult)
    ensures res == Expected(ParseBankLine, utf8Text, latin1Text)
  {
    res := ParseWith(ParseBankLine, utf8Text, latin1Text);
  }

  /** The body of `parse`, for any per-line parser. */
  method ParseWith(parseLine: LineParser, utf8Text: string, latin1Text: string)
    returns (res: BankParseResult)
    ensures res == Expected(parseLine, utf8Text, latin1Text)
  {
    var diagnostics: seq<Diag> := [];
    var content := utf8Text;
    var invalidChars := CountChar(utf8Text, '\U{FFFD}');
    if invalidChars > InvalidCharLimit {
      diagnostics := diagnostics + [FallbackDiag(invalidChars)];
      content := latin1Text;
    }
    assert content == Content(utf8Text, latin1Text);
    var lines := SplitLines(content);
    var rows, kept, errorCount, headerCount, competenciaCount, keys := ScanLines(parseLine, lines);
    diagnostics := diagnostics + kept;
    var validCount := |rows|;
    diagnostics := Summarise(diagnostics, invalidChars, kept, headerCount, errorCount, |lines|, validCount);

    assert forall k :: k in keys ==> k in competenciaCount by {
      FirstSeenMembers(Comps(rows));
      CompCountsDomain(rows);
    }
    var competencia := MostFrequent(keys, competenciaCount);
    assert competencia == Mode(rows);
    res := BankParseResult(rows, diagnostics, competencia);
  }

  /** The tail of `parse` after its loop: the header count put in front,
      then the summary and, past the cap, the truncation notice appended. */
  method Summarise(diagnostics: seq<Diag>, invalidChars: nat, kept: seq<Diag>, headerCount: nat,
                   errorCount: nat, totalLines: nat, validCount: nat)
    returns (out: seq<Diag>)
    requires diagnostics
      == (if invalidChars > InvalidCharLimit then [FallbackDiag(invalidChars)] else []) + kept
    ensures out == Assemble(invalidChars, kept, headerCount, errorCount, totalLines, validCount)
  {
    out := diagnostics;
    ghost var head: seq<Diag> := [];
    if headerCount > 0 {
      head := [HeaderCountDiag(headerCount)];
      out := [HeaderCountDiag(headerCount)] + out;
    }
    ghost var pre := if invalidChars > InvalidCharLimit then [FallbackDiag(invalidChars)] else [];
    assert out == head + pre + kept by {
      ConcatAssoc(head, pre, kept);
    }
    out := out + [SummaryDiag(totalLines, validCount, errorCount, headerCount)];
    if errorCount > ErrorCap {
      out := out + [TruncatedDiag(errorCount)];
    }
  }

  /** What the loop of `parse` has gathered after its first `i` lines. */
  ghost predicate Scanned(parseLine: LineParser, lines: seq<string>, i: nat,
                          rows: seq<Row>, kept: seq<Diag>, errorCount: nat, headerCount: nat,
                          competenciaCount: map<string, nat>, keys: seq<string>)
    requires i <= |lines|
  {
    var ds := LineDiags(parseLine, lines, i);
    && rows == LineRows(parseLine, lines, i)
    && kept == KeptDiags(ds)
    && errorCount == ErrorsIn(ds)
    && headerCount == HeadersIn(ds)
    && keys == FirstSeen(Comps(rows))
    && competenciaCount == CompCounts(rows)
  }

  /** The `for` loop of `parse`: every line through the line parser, rows
      collected, header notices counted, errors counted and capped, the
      competence counter kept with its keys in insertion order. */
  method ScanLines(parseLine: LineParser, lines: seq<string>)
    returns (rows: seq<Row>, kept: seq<Diag>, errorCount: nat, headerCount: nat,
             competenciaCount: map<string, nat>, keys: seq<string>)
    ensures Scanned(parseLine, lines, |lines|, rows, kept, errorCount, headerCount,
                    competenciaCount, keys)
  {
    rows, kept, errorCount, headerCount := [], [], 0, 0;
    competenciaCount, keys := map[], [];
    var i := 0;
    while i < |lines|
      invariant 0 <= i <= |lines|
      invariant Scanned(parseLine, lines, i, rows, kept, errorCount, headerCount,
                        competenciaCount, keys)
    {
      rows, kept, errorCount, headerCount, competenciaCount, keys :=
        ScanLine(parseLine, lines, i, rows, kept, errorCount, headerCount, competenciaCount, keys);
      i := i + 1;
    }
  }

  /** One pass of the loop: line `i` (numbered `i + 1`) parsed and its
      row and diagnostic taken in. */
  method ScanLine(parseLine: LineParser, lines: seq<string>, i: nat,
                  rows: seq<Row>, kept: seq<Diag>, errorCount: nat, headerCount: nat,
                  competenciaCount: map<string, nat>, keys: seq<string>)
    returns (rows': seq<Row>, kept': seq<Diag>, errorCount': nat, headerCount': nat,
             competenciaCount': map<string, nat>, keys': seq<string>)
    requires i < |lines|
    requires Scanned(parseLine, lines, i, rows, kept, errorCount, headerCount,
                     competenciaCount, keys)
    ensures Scanned(parseLine, lines, i + 1, rows', kept', errorCount', headerCount',
                    competenciaCount', keys')
  {
    rows', kept', errorCount', headerCount' := rows, kept, errorCount, headerCount;
    competenciaCount', keys' := competenciaCount, keys;
    var result := parseLine(lines[i], i + 1);
    ghost var ds := LineDiags(parseLine, lines, i);
    LineStep(parseLine, lines, i);
    if result.row.Some? {
      rows', competenciaCount', keys' := AddRow(rows, competenciaCount, keys, result.row.value);
    }
    if result.diag.Some? {
      kept', errorCount', headerCount' := AddDiag(ds, kept, errorCount, headerCount, result.diag.value);
      assert LineDiags(parseLine, lines, i + 1) == ds + [result.diag.value];
    } else {
      assert LineDiags(parseLine, lines, i + 1) == ds;
    }
  }

  /** A row of the loop: appended, and its competence counted. */
  method AddRow(rows: seq<Row>, counts: map<string, nat>, keys: seq<string>, row: Row)
    returns (rows': seq<Row>, counts': map<string, nat>, keys': seq<string>)
    requires keys == FirstSeen(Comps(rows)) && counts == CompCounts(rows)
    ensures rows' == rows + [row]
    ensures keys' == FirstSeen(Comps(rows'))
    ensures counts' == CompCounts(rows')
  {
    CountsStep(rows, row);
    CompsStep(rows, row);
    rows', counts', keys' := rows + [row], counts, keys;
    var comp := row.meta.competencia;
    if comp.Some? {
      var c := comp.value;
      var cs := Comps(rows);
      assert Comps(rows') == cs + [c];
      FirstSeenStep(cs, c);
      FirstSeenMembers(cs);
      counts' := counts[c := (if c in counts then counts[c] else 0) + 1];
      if c !in keys {
        keys' := keys + [c];
      }
    } else {
      assert Comps(rows') == Comps(rows);
    }
  }

  /** A diagnostic of the loop: header notices counted, errors counted and
      kept up to the cap, everything else kept. */
  method AddDiag(ghost ds: seq<Diag>, kept: seq<Diag>, errorCount: nat, headerCount: nat, d: Diag)
    returns (kept': seq<Diag>, errorCount': nat, headerCount': nat)
    requires kept == KeptDiags(ds) && errorCount == ErrorsIn(ds) && headerCount == HeadersIn(ds)
    ensures kept' == KeptDiags(ds + [d])
    ensures errorCount' == ErrorsIn(ds + [d]) && headerCount' == HeadersIn(ds + [d])
  {
    DiagStep(ds, d);
    kept', errorCount', headerCount' := kept, errorCount, headerCount;
    if d.code == "BANK_HEADER" {
      headerCount' := headerCount + 1;
    } else if d.severity == Error {
      errorCount' := errorCount + 1;
      if errorCount' <= ErrorCap {
        kept' := kept + [d];
      }
    } else {
      kept' := kept + [d];
    }
  }

  /** The loop over `Object.entries(competenciaCount)`: the first key whose
      count beats every earlier one. */
  method MostFrequent(keys: seq<string>, counts: map<string, nat>) returns (best: Option<string>)
    requires forall k :: k in keys ==> k in counts
    ensures best == ModeOf(keys, counts).comp
  {
    best := None;
    var maxCount: nat := 0;
    var j := 0;
    while j < |keys|
      invariant 0 <= j <= |keys|
      invariant Best(best, maxCount) == ModeOf(keys[..j], counts)
    {
      assert keys[..j + 1][..j] == keys[..j];
      var count := counts[keys[j]];
      if count > maxCount {
        maxCount := count;
        best := Some(keys[j]);
      }
      j := j + 1;
    }
    assert keys[..j] == keys;
  }

  /** Adding a row updates the counts at its competence only. */
  lemma CountsStep(rows: seq<Row>, row: Row)
    ensures var c := row.meta.competencia; var m := CompCounts(rows);
      CompCounts(rows + [row])
        == if c.Some? then m[c.value := (if c.value in m then m[c.value] else 0) + 1] else m
  {
    assert (rows + [row])[..|rows|] == rows;
  }

  lemma CompsStep(rows: seq<Row>, row: Row)
    ensures var c := row.meta.competencia;
      Comps(rows + [row]) == Comps(rows) + (if c.Some? then [c.value] else [])
  {
    assert (rows + [row])[..|rows|] == rows;
  }

  lemma FirstSeenStep(s: seq<string>, x: string)
    ensures FirstSeen(s + [x]) == if x in s then FirstSeen(s) else FirstSeen(s) + [x]
  {
    assert (s + [x])[..|s|] == s;
    FirstSeenMembers(s);
  }

  /** One more line diagnostic: how the counts and the kept list grow. */
  lemma DiagStep(ds: seq<Diag>, d: Diag)
    ensures HeadersIn(ds + [d]) == HeadersIn(ds) + (if IsHeader(d) then 1 else 0)
    ensures ErrorsIn(ds + [d]) == ErrorsIn(ds) + (if IsLineError(d) then 1 else 0)
    ensures LineErrors(ds + [d]) == LineErrors(ds) + (if IsLineError(d) then [d] else [])
    ensures Notices(ds + [d]) == Notices(ds) + (if IsHeader(d) || IsLineError(d) then [] else [d])
    ensures KeptDiags(ds + [d]) == KeptDiags(ds)
      + (if IsHeader(d) || (IsLineError(d) && ErrorsIn(ds) + 1 > ErrorCap) then [] else [d])
  {
    assert (ds + [d])[..|ds|] == ds;
  }

  /** One more line: how the rows and the diagnostics grow. */
  lemma LineStep(parseLine: LineParser, lines: seq<string>, i: nat)
    requires i < |lines|
    ensures var r := parseLine(lines[i], i + 1);
      && LineRows(parseLine, lines, i + 1)
         == LineRows(parseLine, lines, i) + (if r.row.Some? then [r.row.value] else [])
      && LineDiags(parseLine, lines, i + 1)
         == LineDiags(parseLine, lines, i) + (if r.diag.Some? then [r.diag.value] else [])
  {
  }

  lemma ConcatAssoc(a: seq<Diag>, b: seq<Diag>, c: seq<Diag>)
    ensures a + (b + c) == a + b + c
  {
  }

  // ---------------------------------------------------------------------------
  // Properties of the aggregation

  /** The cap drops every header notice. */
  lemma {:induction false} KeptNoHeaders(ds: seq<Diag>)
    ensures HeadersIn(KeptDiags(ds)) == 0
  {
    if ds != [] {
      var p, d := ds[..|ds| - 1], ds[|ds| - 1];
      assert ds == p + [d];
      KeptNoHeaders(p);
      DiagStep(p, d);
      DiagStep(KeptDiags(p), d);
      assert KeptDiags(ds) == KeptDiags(p)
        + (if IsHeader(d) || (IsLineError(d) && ErrorsIn(p) + 1 > ErrorCap) then [] else [d]);
      if IsHeader(d) || (IsLineError(d) && ErrorsIn(p) + 1 > ErrorCap) {
        assert KeptDiags(ds) == KeptDiags(p);
      } else {
        assert HeadersIn(KeptDiags(p) + [d]) == 0;
      }
    }
  }

  /** The cap keeps the first fifty errors, in order, and no other. */
  lemma {:induction false} KeptErrors(ds: seq<Diag>)
    ensures LineErrors(KeptDiags(ds)) == LineErrors(ds)[..Shown(ErrorsIn(ds))]
  {
    if ds != [] {
      var p, d := ds[..|ds| - 1], ds[|ds| - 1];
      assert ds == p + [d];
      KeptErrors(p);
      KeptErrorsStep(p, d);
    }
  }

  lemma KeptErrorsStep(p: seq<Diag>, d: Diag)
    requires LineErrors(KeptDiags(p)) == LineErrors(p)[..Shown(ErrorsIn(p))]
    ensures LineErrors(KeptDiags(p + [d])) == LineErrors(p + [d])[..Shown(ErrorsIn(p + [d]))]
  {
    DiagStep(p, d);
    if !IsLineError(d) {
      KeptOtherStep(p, d);
    } else if ErrorsIn(p) + 1 > ErrorCap {
      KeptDroppedStep(p, d);
    } else {
      KeptErrorStep(p, d);
    }
  }

  /** A diagnostic that is no error leaves the kept errors as they were. */
  lemma KeptOtherStep(p: seq<Diag>, d: Diag)
    requires !IsLineError(d)
    ensures LineErrors(KeptDiags(p + [d])) == LineErrors(KeptDiags(p))
    ensures LineErrors(p + [d]) == LineErrors(p) && ErrorsIn(p + [d]) == ErrorsIn(p)
  {
    DiagStep(p, d);
    DiagStep(KeptDiags(p), d);
    if IsHeader(d) {
      assert KeptDiags(p + [d]) == KeptDiags(p);
    } else {
      assert KeptDiags(p + [d]) == KeptDiags(p) + [d];
    }
  }

  /** An error past the cap is dropped. */
  lemma KeptDroppedStep(p: seq<Diag>, d: Diag)
    requires IsLineError(d) && ErrorsIn(p) + 1 > ErrorCap
    requires LineErrors(KeptDiags(p)) == LineErrors(p)[..Shown(ErrorsIn(p))]
    ensures LineErrors(KeptDiags(p + [d])) == LineErrors(p + [d])[..Shown(ErrorsIn(p + [d]))]
  {
    var le := LineErrors(p);
    assert KeptDiags(p + [d]) == KeptDiags(p) by {
      DiagStep(p, d);
    }
    assert LineErrors(p + [d]) == le + [d] && Shown(ErrorsIn(p + [d])) == ErrorCap by {
      DiagStep(p, d);
    }
    assert Shown(ErrorsIn(p)) == ErrorCap <= |le|;
    assert (le + [d])[..ErrorCap] == le[..ErrorCap];
  }

  /** An error within the cap is kept. */
  lemma KeptErrorStep(p: seq<Diag>, d: Diag)
    requires IsLineError(d) && ErrorsIn(p) + 1 <= ErrorCap
    requires LineErrors(KeptDiags(p)) == LineErrors(p)[..Shown(ErrorsIn(p))]
    ensures LineErrors(KeptDiags(p + [d])) == LineErrors(p + [d])[..Shown(ErrorsIn(p + [d]))]
  {
    var k, le := KeptDiags(p), LineErrors(p);
    assert KeptDiags(p + [d]) == k + [d] by {
      DiagStep(p, d);
    }
    assert LineErrors(k + [d]) == LineErrors(k) + [d] by {
      DiagStep(k, d);
    }
    var all := LineErrors(p + [d]);
    assert all == le + [d] && |all| == ErrorsIn(p + [d]) <= ErrorCap by {
      DiagStep(p, d);
    }
    assert LineErrors(k) == le by {
      assert le[..Shown(ErrorsIn(p))] == le;
    }
    assert all[..Shown(ErrorsIn(p + [d]))] == all;
  }

  /** The cap keeps every diagnostic that is neither a header notice nor an
      error, in order. */
  lemma {:induction false} KeptNotices(ds: seq<Diag>)
    ensures Notices(KeptDiags(ds)) == Notices(ds)
  {
    if ds != [] {
      var p, d := ds[..|ds| - 1], ds[|ds| - 1];
      assert ds == p + [d];
      KeptNotices(p);
      DiagStep(p, d);
      DiagStep(KeptDiags(p), d);
      if IsHeader(d) || (IsLineError(d) && ErrorsIn(p) + 1 > ErrorCap) {
        assert KeptDiags(ds) == KeptDiags(p);
      } else {
        assert KeptDiags(ds) == KeptDiags(p) + [d];
      }
    }
  }

  /** The layout of the diagnostics: the header count first when there were
      headers, then the encoding notice when the fallback was taken, the kept
      line diagnostics, the summary (a warning exactly when some line failed)
      and, when more than fifty lines failed, the truncation notice. */
  lemma DiagnosticsLayout(invalidChars: nat, kept: seq<Diag>, headers: nat, errors: nat,
                          totalLines: nat, validCount: nat)
    ensures var out := Assemble(invalidChars, kept, headers, errors, totalLines, validCount);
      var a := (if headers > 0 then 1 else 0) + (if invalidChars > InvalidCharLimit then 1 else 0);
      && |out| == a + |kept| + 1 + (if errors > ErrorCap then 1 else 0)
      && (headers > 0 ==> out[0] == HeaderCountDiag(headers))
      && (invalidChars > InvalidCharLimit ==> out[a - 1] == FallbackDiag(invalidChars))
      && out[a..a + |kept|] == kept
      && out[a + |kept|] == SummaryDiag(totalLines, validCount, errors, headers)
      && (out[a + |kept|].severity == Warn <==> errors > 0)
      && (errors > ErrorCap ==> out[a + |kept| + 1] == TruncatedDiag(errors))
  {
    var h: seq<Diag> := if headers > 0 then [HeaderCountDiag(headers)] else [];
    var f: seq<Diag> := if invalidChars > InvalidCharLimit then [FallbackDiag(invalidChars)] else [];
    var t: seq<Diag> := if errors > ErrorCap then [TruncatedDiag(errors)] else [];
    var out := h + f + kept + [SummaryDiag(totalLines, validCount, errors, headers)] + t;
    assert out == Assemble(invalidChars, kept, headers, errors, totalLines, validCount);
    var hf := h + f;
    forall j | 0 <= j < |kept|
      ensures out[|hf| + j] == kept[j]
    {
    }
    assert out[|hf|..|hf| + |kept|] == kept;
  }

  /** The number of the line each row of the first `n` lines came from. */
  ghost function RowLines(parseLine: LineParser, lines: seq<string>, n: nat): (ks: seq<nat>)
    requires n <= |lines|
    ensures |ks| == |LineRows(parseLine, lines, n)|
  {
    if n == 0 then []
    else
      var r := parseLine(lines[n - 1], n);
      RowLines(parseLine, lines, n - 1) + (if r.row.Some? then [n] else [])
  }

  /** Each row of `rows` is what the line parser gave for line `ks[i]`, one
      of the first `n`, and the line numbers increase. */
  ghost predicate FromLines(parseLine: LineParser, lines: seq<string>, n: nat,
                            rows: seq<Row>, ks: seq<nat>)
    requires n <= |lines|
  {
    && |ks| == |rows|
    && (forall i :: 0 <= i < |ks| ==>
          1 <= ks[i] <= n && parseLine(lines[ks[i] - 1], ks[i]).row == Some(rows[i]))
    && (forall i, j :: 0 <= i < j < |ks| ==> ks[i] < ks[j])
  }

  /** Every row of the first `n` lines is what the line parser gave for one
      of them, and the rows keep line order. */
  lemma {:induction false} LineRowsOrigin(parseLine: LineParser, lines: seq<string>, n: nat)
    requires n <= |lines|
    ensures FromLines(parseLine, lines, n, LineRows(parseLine, lines, n), RowLines(parseLine, lines, n))
  {
    if n > 0 {
      LineRowsOrigin(parseLine, lines, n - 1);
      FromLinesStep(parseLine, lines, n, LineRows(parseLine, lines, n - 1),
                    RowLines(parseLine, lines, n - 1));
    }
  }

  /** Line `n` adds its row, if any, with its number. */
  lemma FromLinesStep(parseLine: LineParser, lines: seq<string>, n: nat, rows: seq<Row>, ks: seq<nat>)
    requires 0 < n <= |lines| && FromLines(parseLine, lines, n - 1, rows, ks)
    ensures var r := parseLine(lines[n - 1], n);
      FromLines(parseLine, lines, n,
                rows + (if r.row.Some? then [r.row.value] else []),
                ks + (if r.row.Some? then [n] else []))
  {
    var r := parseLine(lines[n - 1], n);
    if r.row.Some? {
      var rows', ks' := rows + [r.row.value], ks + [n];
      assert forall i :: 0 <= i < |ks| ==> ks'[i] == ks[i] && rows'[i] == rows[i];
      assert ks'[|ks|] == n && rows'[|ks|] == r.row.value;
    } else {
      assert rows + [] == rows && ks + [] == ks;
    }
  }

  /** The diagnostics of the first `n` lines are each what the line parser
      gave for one of them. */
  lemma {:induction false} LineDiagsOrigin(parseLine: LineParser, lines: seq<string>, n: nat)
    requires n <= |lines|
    ensures forall d :: d in LineDiags(parseLine, lines, n) ==>
      exists k :: 0 <= k < n && parseLine(lines[k], k + 1).diag == Some(d)
  {
    if n > 0 {
      LineDiagsOrigin(parseLine, lines, n - 1);
    }
  }

  // ---------------------------------------------------------------------------
  // Properties of the reported competence

  /** No competence is reported exactly when no row carries one. */
  lemma ModeNone(rows: seq<Row>)
    ensures Mode(rows).None? <==> Comps(rows) == []
  {
    var cs := Comps(rows);
    FirstSeenMembers(cs);
    CompCountsDomain(rows);
    if cs != [] {
      CompCountsAreFrequencies(rows);
      assert cs[0] in FirstSeen(cs);
      assert CompCounts(rows)[cs[0]] >= 1;
    }
  }

  /** The reported competence is one of the rows' and none occurs more often. */
  lemma ModeMostFrequent(rows: seq<Row>)
    requires Mode(rows).Some?
    ensures var c, cs := Mode(rows).value, Comps(rows);
      c in cs && forall c' :: c' in cs ==> multiset(cs)[c'] <= multiset(cs)[c]
  {
    var cs := Comps(rows);
    FirstSeenMembers(cs);
    CompCountsDomain(rows);
    CompCountsAreFrequencies(rows);
  }

  /** On a tie the competence met first wins: every competence that occurs
      before the first occurrence of the reported one occurs less often. */
  lemma ModeFirstOnTie(rows: seq<Row>)
    requires Mode(rows).Some?
    ensures var c, cs := Mode(rows).value, Comps(rows);
      forall i :: 0 <= i < |cs| && c !in cs[..i + 1] ==> multiset(cs)[cs[i]] < multiset(cs)[c]
  {
    var cs := Comps(rows);
    var keys, counts := FirstSeen(cs), CompCounts(rows);
    FirstSeenMembers(cs);
    CompCountsDomain(rows);
    CompCountsAreFrequencies(rows);
    var c := Mode(rows).value;
    forall i | 0 <= i < |cs| && c !in cs[..i + 1]
      ensures multiset(cs)[cs[i]] < multiset(cs)[c]
    {
      var p := FirstSeenOrder(cs, c, i);
      ModeOfEarlier(keys, counts, p);
    }
  }

  /** A key before the winner's position in `keys` has a smaller count. */
  lemma {:induction false} ModeOfEarlier(keys: seq<string>, counts: map<string, nat>, p: nat)
    requires forall k :: k in keys ==> k in counts
    requires p < |keys| && ModeOf(keys, counts).comp.Some?
    requires ModeOf(keys, counts).comp.value !in keys[..p + 1]
    ensures counts[keys[p]] < ModeOf(keys, counts).count
  {
    var n := |keys| - 1;
    var prefix := keys[..n];
    var b := ModeOf(prefix, counts);
    assert forall x :: x in prefix ==> x in keys;
    if counts[keys[n]] > b.count {
      assert p < n;
      assert keys[p] in prefix;
    } else {
      assert ModeOf(keys, counts) == b;
      if p == n {
        assert false;
      }
      assert prefix[..p + 1] == keys[..p + 1];
      ModeOfEarlier(prefix, counts, p);
    }
  }

  /** An element met before the first occurrence of `c` comes before `c`
      in the list of first appearances. */
  lemma {:induction false} FirstSeenOrder(s: seq<string>, c: string, i: nat) returns (p: nat)
    requires c in s && i < |s| && c !in s[..i + 1]
    ensures p < |FirstSeen(s)| && FirstSeen(s)[p] == s[i] && c !in FirstSeen(s)[..p + 1]
  {
    var n := |s| - 1;
    var prefix := s[..n];
    assert s == prefix + [s[n]];
    assert s[..n + 1] == s;
    FirstSeenStep(prefix, s[n]);
    var fp := FirstSeen(prefix);
    if c in prefix {
      assert prefix[..i + 1] == s[..i + 1];
      p := FirstSeenOrder(prefix, c, i);
    } else {
      assert s[i] in prefix by {
        assert s[i] == prefix[i];
      }
      FirstSeenMembers(prefix);
      p :| p < |fp| && fp[p] == s[i];
      NotInTake(fp, p + 1, c);
    }
    OrderKept(fp, if s[n] in prefix then [] else [s[n]], p, c);
  }

  /** What is missing from a list is missing from its prefixes. */
  lemma NotInTake(a: seq<string>, k: nat, c: string)
    requires k <= |a| && c !in a
    ensures c !in a[..k]
  {
    assert a == a[..k] + a[k..];
  }

  /** Appending keeps the entry at `p` and the prefix up to it. */
  lemma OrderKept(a: seq<string>, b: seq<string>, p: nat, c: string)
    requires p < |a| && c !in a[..p + 1]
    ensures (a + b)[p] == a[p] && c !in (a + b)[..p + 1]
  {
    assert (a + b)[..p + 1] == a[..p + 1];
  }

  // ---------------------------------------------------------------------------
  // Properties of `parse` over the bank's line parser

  /** A line parser whose rows come from the bank with high confidence and
      carry the number of their line. */
  ghost predicate BankRows(parseLine: LineParser) {
    forall line: string, lineNo: nat :: parseLine(line, lineNo).row.Some? ==>
      var row := parseLine(line, lineNo).row.value;
      row.source == Banco && row.meta.confidence == Some(High) && row.rawRef.lineNo == Some(lineNo)
  }

  /** ParseBankLine is such a parser. */
  lemma BankLineRows()
    ensures BankRows(ParseBankLine)
  {
  }

  /** The rows `parse` returns for `lines` (Expected's rows): each is the one
      the line parser gives for the line its raw reference names (numbered
      from 1), comes from the bank with high confidence, and rows appear in
      line order. */
  lemma RowsOrigin(parseLine: LineParser, lines: seq<string>)
    requires BankRows(parseLine)
    ensures var rows := LineRows(parseLine, lines, |lines|);
      && (forall i :: 0 <= i < |rows| ==>
            && rows[i].source == Banco && rows[i].meta.confidence == Some(High)
            && rows[i].rawRef.lineNo.Some? && 1 <= rows[i].rawRef.lineNo.value <= |lines|
            && parseLine(lines[rows[i].rawRef.lineNo.value - 1], rows[i].rawRef.lineNo.value).row
               == Some(rows[i]))
      && (forall i, j :: 0 <= i < j < |rows| ==>
            rows[i].rawRef.lineNo.Some? && rows[j].rawRef.lineNo.Some?
            && rows[i].rawRef.lineNo.value < rows[j].rawRef.lineNo.value)
  {
    var rows := LineRows(parseLine, lines, |lines|);
    var ks := RowLines(parseLine, lines, |lines|);
    LineRowsOrigin(parseLine, lines, |lines|);
    assert forall i :: 0 <= i < |ks| ==> rows[i].rawRef.lineNo == Some(ks[i]);
  }

  /** Some diagnostic of `ds` carries the code `code`. */
  predicate HasCode(ds: seq<Diag>, code: string) {
    exists i :: 0 <= i < |ds| && ds[i].code == code
  }

  /** Besides the kept line diagnostics, only the encoding notice added past
      the limit carries the fallback code. */
  lemma FallbackOnlyFromLimit(invalidChars: nat, kept: seq<Diag>, headers: nat, errors: nat,
                              totalLines: nat, validCount: nat)
    requires forall d :: d in kept ==> d.code != "BANK_ENCODING_FALLBACK"
    ensures var out := Assemble(invalidChars, kept, headers, errors, totalLines, validCount);
      forall i :: 0 <= i < |out| && out[i].code == "BANK_ENCODING_FALLBACK" ==> invalidChars > InvalidCharLimit
  {
    var out := Assemble(invalidChars, kept, headers, errors, totalLines, validCount);
    if invalidChars <= InvalidCharLimit {
      var h: seq<Diag> := if headers > 0 then [HeaderCountDiag(headers)] else [];
      var s := SummaryDiag(totalLines, validCount, errors, headers);
      var t: seq<Diag> := if errors > ErrorCap then [TruncatedDiag(errors)] else [];
      assert out == h + kept + [s] + t;
      forall i | 0 <= i < |out|
        ensures out[i].code != "BANK_ENCODING_FALLBACK"
      {
        assert out[i] in h || out[i] in kept || out[i] == s || out[i] in t;
      }
    }
  }

  /** The encoding notice is present exactly when the fallback was taken,
      provided no line diagnostic carries its code (ParseBankLine's never
      do, by BankLine.LineCodes). */
  lemma FallbackIff(invalidChars: nat, ds: seq<Diag>, totalLines: nat, validCount: nat)
    requires forall d :: d in ds ==> d.code != "BANK_ENCODING_FALLBACK"
    ensures HasCode(Assemble(invalidChars, KeptDiags(ds), HeadersIn(ds), ErrorsIn(ds), totalLines, validCount),
                    "BANK_ENCODING_FALLBACK")
      <==> invalidChars > InvalidCharLimit
  {
    var kept, hs, e := KeptDiags(ds), HeadersIn(ds), ErrorsIn(ds);
    KeptSubset(ds);
    FallbackOnlyFromLimit(invalidChars, kept, hs, e, totalLines, validCount);
    var out := Assemble(invalidChars, kept, hs, e, totalLines, validCount);
    if invalidChars > InvalidCharLimit {
      var h: seq<Diag> := if hs > 0 then [HeaderCountDiag(hs)] else [];
      assert out == h + [FallbackDiag(invalidChars)] + kept + [SummaryDiag(totalLines, validCount, e, hs)]
        + (if e > ErrorCap then [TruncatedDiag(e)] else []);
      assert 0 <= |h| < |out| && out[|h|].code == "BANK_ENCODING_FALLBACK";
    }
  }

  /** Every kept diagnostic is one of the line diagnostics. */
  lemma {:induction false} KeptSubset(ds: seq<Diag>)
    ensures forall d :: d in KeptDiags(ds) ==> d in ds
  {
    if ds != [] {
      var p, d := ds[..|ds| - 1], ds[|ds| - 1];
      assert ds == p + [d];
      KeptSubset(p);
      DiagStep(p, d);
    }
  }
}
