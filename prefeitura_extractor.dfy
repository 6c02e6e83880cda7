// The municipal extractor's dispatch on the file name
// (src/core/prefeitura/PrefeituraExtractor.ts): a ".csv" file, in any
// letter case, goes to the CSV report extractor; anything else is refused.
// Reading the file is I/O, so its text is a parameter here.

module PrefeituraExtractor {
  import opened Domain
  import opened Text
  import opened CsvReport

  /** The detected format of a municipal file. */
  datatype Formato = CsvReportV1 | Unknown

  /** What `extract` returns. */
  datatype ExtractionResult = ExtractionResult(
    rows: seq<Row>,
    diagnostics: seq<Diag>,
    competencia: Option<string>,
    formato: Formato)

  /** `s.split(c)` for a one-character separator: the pieces between the
      separators, one more than there are separators. Written from the end:
      a separator starts a new, empty last piece and any other character
      extends the last piece. */
  function Split(s: string, c: char): (parts: seq<string>)
    ensures |parts| >= 1
  {
    if s == [] then [[]]
    else
      var init := Split(s[..|s| - 1], c);
      var x := s[|s| - 1];
      if x == c then init + [[]]
      else init[..|init| - 1] + [init[|init| - 1] + [x]]
  }

  /** The last piece of a split is the tail of `s` after its last separator,
      or all of `s` when there is none. */
  lemma SplitLast(s: string, c: char)
    ensures var parts := Split(s, c); var l := parts[|parts| - 1];
      && c !in l && |l| <= |s| && s[|s| - |l|..] == l
      && (|parts| == 1 <==> c !in s)
      && (|parts| >= 2 ==> |l| < |s| && s[|s| - |l| - 1] == c)
  {
    SplitLastPiece(s, c);
    SplitCount(s, c);
    SplitLastSeparator(s, c);
  }

  /** The last piece holds no separator and ends `s`. */
  lemma {:induction false} SplitLastPiece(s: string, c: char)
    ensures var parts := Split(s, c); var l := parts[|parts| - 1];
      c !in l && |l| <= |s| && s[|s| - |l|..] == l
  {
    if s != [] {
      var s' := s[..|s| - 1];
      var x := s[|s| - 1];
      SplitLastPiece(s', c);
      assert s == s' + [x];
      var init := Split(s', c);
      var l' := init[|init| - 1];
      if x != c {
        var l := l' + [x];
        assert Split(s, c)[|Split(s, c)| - 1] == l;
        assert s[|s| - |l|..] == s'[|s'| - |l'|..] + [x];
      }
    }
  }

  /** There is one piece exactly when there is no separator. */
  lemma {:induction false} SplitCount(s: string, c: char)
    ensures |Split(s, c)| == 1 <==> c !in s
  {
    if s != [] {
      var s' := s[..|s| - 1];
      var x := s[|s| - 1];
      SplitCount(s', c);
      assert s == s' + [x];
      assert c in s <==> c in s' || x == c;
    }
  }

  /** With two pieces or more, a separator comes just before the last. */
  lemma {:induction false} SplitLastSeparator(s: string, c: char)
    ensures var parts := Split(s, c); var l := parts[|parts| - 1];
      |parts| >= 2 ==> |l| < |s| && s[|s| - |l| - 1] == c
  {
    if s != [] {
      var s' := s[..|s| - 1];
      var x := s[|s| - 1];
      assert s == s' + [x];
      if x != c {
        SplitLastSeparator(s', c);
        SplitLastPiece(s', c);
        var init := Split(s', c);
        var l' := init[|init| - 1];
        assert Split(s, c)[|Split(s, c)| - 1] == l' + [x];
        if |init| >= 2 {
          assert s[|s| - |l' + [x]| - 1] == s'[|s'| - |l'| - 1];
        }
      }
    }
  }

  /** `getExtension(fileName)`: the last piece of the name split at '.',
      lower-cased, or "" when the name has no '.'. */
  function GetExtension(fileName: string): (ext: string)
    ensures |ext| <= |fileName|
    ensures '.' !in ext
  {
    var parts := Split(fileName, '.');
    SplitLast(fileName, '.');
    if |parts| < 2 then "" else ToLower(parts[|parts| - 1])
  }

  /** The extension is empty for a name without '.', and otherwise is the
      text after the last '.', lower-cased (empty for a trailing dot). */
  lemma GetExtensionLastDot(fileName: string)
    ensures '.' !in fileName ==> GetExtension(fileName) == ""
    ensures '.' in fileName ==>
      exists i :: 0 <= i < |fileName| && fileName[i] == '.'
        && (forall j :: i < j < |fileName| ==> fileName[j] != '.')
        && GetExtension(fileName) == ToLower(fileName[i + 1..])
  {
    SplitLast(fileName, '.');
    if '.' in fileName {
      var parts := Split(fileName, '.');
      var l := parts[|parts| - 1];
      var i := |fileName| - |l| - 1;
      assert fileName[i + 1..] == l;
      assert forall j :: i < j < |fileName| ==> fileName[j] == l[j - i - 1];
    }
  }

  /** A name made of a stem, a '.' and a suffix without '.' has the suffix,
      lower-cased, as its extension: "Folha.CSV" has "csv". */
  lemma GetExtensionOfSuffix(stem: string, suffix: string)
    requires '.' !in suffix
    ensures GetExtension(stem + "." + suffix) == ToLower(suffix)
  {
    var name := stem + "." + suffix;
    assert name[|stem|] == '.';
    GetExtensionLastDot(name);
    var i :| 0 <= i < |name| && name[i] == '.'
      && (forall j :: i < j < |name| ==> name[j] != '.')
      && GetExtension(name) == ToLower(name[i + 1..]);
    DotAfterStem(stem, suffix);
    assert i == |stem|;
    assert name[i + 1..] == suffix;
  }

  /** The result for a format that is not supported. */
  const Unsupported: ExtractionResult :=
    ExtractionResult([], [Diag(Error, "prefeitura_unsupported_format", map[])], None, Unknown)

  /** `extract(file)` for a file named `fileName` whose text is `text`. */
  function Extract(fileName: string, text: string): (res: ExtractionResult)
    ensures res.formato == CsvReportV1 <==> GetExtension(fileName) == "csv"
    ensures res.formato == CsvReportV1 ==>
      var report := Report(Csv, text);
      res.rows == report.rows && res.diagnostics == report.diagnostics
      && res.competencia == report.competencia
    ensures res.formato == Unknown ==>
      res.rows == [] && res.competencia == None && |res.diagnostics| == 1
      && res.diagnostics[0].severity == Error
      && res.diagnostics[0].code == "prefeitura_unsupported_format"
  {
    if GetExtension(fileName) == "csv" then
      var report := Report(Csv, text);
      ExtractionResult(report.rows, report.diagnostics, report.competencia, CsvReportV1)
    else Unsupported
  }

  /** In `stem + "." + suffix` the '.' after the stem is the last one. */
  lemma DotAfterStem(stem: string, suffix: string)
    requires '.' !in suffix
    ensures var name := stem + "." + suffix;
      name[|stem|] == '.' && forall j :: |stem| < j < |name| ==> name[j] != '.'
  {
    var name := stem + "." + suffix;
    forall j | |stem| < j < |name| ensures name[j] != '.' {
      assert name[j] == suffix[j - |stem| - 1];
    }
  }

  /** A ".csv" name in any letter case selects the CSV report extractor. */
  lemma CsvAnyCase(stem: string, suffix: string, text: string)
    requires '.' !in suffix && ToLower(suffix) == "csv"
    ensures Extract(stem + "." + suffix, text).formato == CsvReportV1
  {
    GetExtensionOfSuffix(stem, suffix);
  }

  /** A name without '.' is refused. */
  lemma NoExtensionRefused(fileName: string, text: string)
    requires '.' !in fileName
    ensures Extract(fileName, text) == Unsupported
  {
    GetExtensionLastDot(fileName);
  }
}
