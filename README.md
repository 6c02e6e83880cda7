# Conecta record-extraction engine, modelled in Dafny

This project models the extraction core of Conecta (`src/core`). That core turns raw payroll documents into normalised rows plus a trail of diagnostics. A row holds a `matricula` (employee registration), an amount, and meta: competence `MM/YYYY`, event code, confidence and a raw reference. A diagnostic holds a severity and a code. The documents are:

- the bank's fixed-width TXT file: `parseBankLine` and the `BankParser.parse` fold;
- the municipality's CSV payroll report: `extractFromCsvReport`;
- a spreadsheet grid: `detectSheetColumns`, plus the row loop of `extractFromXlsx` and `determineExtracao`;
- a free-text report: `parseTextReport`, with its standard pass and its column-separated fallback;
- the extension dispatch of `PrefeituraExtractor`;
- pt-BR money text: `parseBRL`.

Money is held as integer cents throughout. Every regular expression the core uses is written out as a small recogniser over `string` (module `Patterns`, plus `Text` for trimming, digits and line splitting).

Where the source loops and mutates, the model has a method with that loop. Each such method is proved equal to a specification function that folds a one-step function over the input. These methods are `BankParser.ParseWith`, `CsvReport.ExtractWith`, `SheetColumns.CountColumns`, `XlsxTable.ExtractDetected`, and `TextReport.ParseStandardFormat` / `ParseColumnSeparatedFormat`. The source's promises are then proved as lemmas about those specification functions.

Three helpers live in a file that is not part of this model: `parseCellAsMatricula`, `parseCellAsMonetary` and `cellLooksCpf`. They are passed in as a `CellParsers` value of function fields. The same goes for the cell rendering `parseSheetValue` and `String(cell)`. The CSV and free-text scans are written over a `Readers` value holding their line recognisers, so that their proofs do not depend on how a pattern is matched. The reports' own recognisers are the constants `CsvReport.Csv` and `TextReport.Recognisers`, built from `Patterns`, `Brl` and `TextLines`.

Modules, one per source file:

| module | file |
|---|---|
| `Domain` | `src/core/domain/types.ts` (rows, diagnostics, codes) |
| `Text`, `Sequences`, `Patterns` | shared string, sequence and regular-expression helpers |
| `Brl` | `src/core/prefeitura/parseBRL.ts` |
| `BankLine` | `src/core/bank/parseLine.ts` |
| `BankParser` | `src/core/bank/BankParser.ts` |
| `CsvReport` | `src/core/prefeitura/extractFromCsvReport.ts` |
| `PrefeituraExtractor` | `src/core/prefeitura/PrefeituraExtractor.ts` |
| `SheetColumns` | `src/core/prefeitura/connectors/sheet/detectSheetColumns.ts` |
| `XlsxTable` | `src/core/prefeitura/connectors/xlsx/xlsxTableV1.ts` |
| `TextLines`, `TextReport` | `src/core/prefeitura/connectors/text/parseTextReport.ts` |

## Model

| member | source | states |
|---|---|---|
| Brl.StripQuotes | src/core/prefeitura/parseBRL.ts:21 | removing at most one quote at each end never lengthens the text, and text with no quote at either end is left as it is |
| Brl.RemoveDotsNoDot | src/core/prefeitura/parseBRL.ts:29 | no point survives the removal of thousands separators |
| Brl.RemoveDotsIdentity | src/core/prefeitura/parseBRL.ts:29 | text without points is unchanged by it |
| Brl.RemoveDotsAppend | src/core/prefeitura/parseBRL.ts:29 | the removal works piecewise over a concatenation |
| Brl.ReplaceFirstComma | src/core/prefeitura/parseBRL.ts:32 | only the first comma becomes a point: the length is kept and text with no comma is unchanged |
| Brl.ParseUnsigned | src/core/prefeitura/parseBRL.ts:35 | the numeric prefix parseFloat reads after the sign is a non-negative decimal |
| Brl.RoundCents | src/core/prefeitura/parseBRL.ts:43 | Math.round(x * 100) on the exact value: the result c satisfies 2·den·c ≤ 200·m + den < 2·den·(c + 1), so it is the nearest whole number of cents, with halves rounded up |
| Brl.ParseBRL | src/core/prefeitura/parseBRL.ts:12-44 | empty and whitespace-only input reads as null |
| Brl.ParseBRLTail | src/core/prefeitura/parseBRL.ts:35-43 | a value is produced exactly when parseFloat finds a numeric prefix; otherwise null, as for a non-finite result |
| Brl.MoneyTextValue | src/core/prefeitura/parseBRL.ts:18-43 | pt-BR money text (digits and thousands points, a comma, two decimals) reads as the amount it denotes: 100 × its whole part plus its decimals |
| Brl.MoneyReadsAsPoint | src/core/prefeitura/parseBRL.ts:18-35 | trimming, quote removal, point removal and comma replacement turn money text into "<whole>.<decimals>" |
| Brl.MoneyPointValue | src/core/prefeitura/parseBRL.ts:35-43 | parseFloat and rounding read "<whole>.<decimals>" as the amount the money text denotes |
| Brl.MoneyIsClean | src/core/prefeitura/parseBRL.ts:18-21 | trimming and quote stripping leave money text unchanged |
| Brl.MoneyNormalized | src/core/prefeitura/parseBRL.ts:29-32 | dropping the points and replacing the first comma gives the whole part, a point, and the decimals |
| Brl.CommaBetween | src/core/prefeitura/parseBRL.ts:29 | point removal leaves a comma and the digits after it alone |
| Brl.FirstCommaAfterDigits | src/core/prefeitura/parseBRL.ts:32 | after a run of digits, the first comma is the one that is replaced |
| Brl.ParseWholeDotTwo | src/core/prefeitura/parseBRL.ts:35-43 | "<digits>.<two digits>" reads as the digits taken together, i.e. 100 × whole + decimals cents |
| Brl.TailOfTwoPlaces | src/core/prefeitura/parseBRL.ts:43 | a parsed value with two decimals gives its mantissa as cents |
| Brl.RoundTwoPlaces | src/core/prefeitura/parseBRL.ts:43 | rounding a value with two decimals to cents changes nothing |
| Brl.ParseFloatPointNumber | src/core/prefeitura/parseBRL.ts:35 | parseFloat reads all of "<digits>.<digits>": its mantissa is the digits on both sides, and its scale is the number of decimals |
| Brl.ParsePointed | src/core/prefeitura/parseBRL.ts:35 | text that starts with a digit run, then a point, then a digit run reads as that decimal, whatever follows |
| Brl.UnsignedStart | src/core/prefeitura/parseBRL.ts:35 | text starting with a digit has no white space or sign for parseFloat to skip |
| Brl.GroupThousands | src/core/prefeitura/parseBRL.ts:29 | points inserted as thousands separators are exactly what point removal takes away (partner of the point removal) |
| Brl.FormatBRL | src/core/prefeitura/parseBRL.ts:4 | every amount of cents can be written as pt-BR money text |
| Brl.FormatParses | src/core/prefeitura/parseBRL.ts:12-44 | round trip: parseBRL reads back every amount written the pt-BR way |
| Brl.FormatDenotes | src/core/prefeitura/parseBRL.ts:4 | the pt-BR rendering of an amount denotes that amount |
| Brl.MoneyOfParts | src/core/prefeitura/parseBRL.ts:4 | points and digits, then a comma and two digits, make money text worth 100 × the digits plus the decimals |
| Brl.WholeCommaCents | src/core/prefeitura/parseBRL.ts:29-43 | "<digits>,<cc>" reads as 100 × digits + cc cents ("0,00" is 0, "100,00" is 10000) |
| Brl.QuotesIgnored | src/core/prefeitura/parseBRL.ts:21 | one quote, single or double, at each end is ignored: "\"400,49\"" reads as "400,49" |
| Brl.NoNumericPrefix | src/core/prefeitura/parseBRL.ts:35-40 | text whose first character cannot begin a number, such as "abc", reads as null |
| BankLine.RemoveLineBreaks | src/core/bank/parseLine.ts:35 | the cleaned line holds no CR or LF and is no longer than the line |
| BankLine.RemoveLineBreaksIdentity | src/core/bank/parseLine.ts:35 | a line without CR or LF is left as it is |
| BankLine.BankMatricula | src/core/bank/parseLine.ts:85-88 | the matricula of a 12-digit field has a hyphen between base and suffix |
| BankLine.BankMatriculaReadsBack | src/core/bank/parseLine.ts:85-88 | cut at its hyphen, the matricula gives canonical numerals of the first 10 and the last 2 digits of the field (leading zeros dropped) |
| BankLine.BankMatriculaExample | src/core/bank/parseLine.ts:86-88 | the field "000000008501" gives "85-1" |
| BankLine.BankCompetencia | src/core/bank/parseLine.ts:107-115 | a competence is present exactly when positions 44–49 are six digits, and it is then MM/YYYY text |
| BankLine.BankEvento | src/core/bank/parseLine.ts:117-123 | an event is present exactly when positions 34–43 are all digits |
| BankLine.BankEventoValue | src/core/bank/parseLine.ts:121-123 | the event is the field's number written without leading zeros |
| BankLine.ParseBankLine | src/core/bank/parseLine.ts:33-152 | neither row nor diagnostic exactly for a blank line; never a row together with a diagnostic; a row has source banco, confidence high, and rawRef = (lineNo, cleaned line) |
| BankLine.HeaderLine | src/core/bank/parseLine.ts:44-54 | a line of type '1' yields only an info BANK_HEADER diagnostic |
| BankLine.UnknownLine | src/core/bank/parseLine.ts:143-151 | a non-blank line of any other type than '1' or '2' yields only a warn BANK_UNKNOWN_LINE_TYPE |
| BankLine.DataLineChecks | src/core/bank/parseLine.ts:57-102 | a type-2 line is checked in order: length < 57 gives BANK_LINE_TOO_SHORT (with its length), then a non-digit matricula field gives BANK_INVALID_MATRICULA, then a non-digit amount field gives BANK_INVALID_VALOR; each is an error with no row |
| BankLine.RowIff | src/core/bank/parseLine.ts:57-140 | a row appears exactly for a type-2 line of at least 57 characters whose matricula and amount fields are all digits |
| BankLine.RowFields | src/core/bank/parseLine.ts:86-138 | a row's cents are the number in positions 50–56; its matricula, competence and event come from positions 22–33, 44–49 and 34–43 |
| BankLine.LineCodes | src/core/bank/parseLine.ts:42-151 | a line's diagnostic is the info header notice, one of the three data-line errors, or the unknown-type warning |
| BankParser.CountChar | src/core/bank/BankParser.ts:34 | the count of a character is at most the length, and zero exactly when the character does not occur |
| BankParser.LineRows | src/core/bank/BankParser.ts:52-65 | the rows of the first n lines number at most n |
| BankParser.LineDiags | src/core/bank/BankParser.ts:52-67 | the diagnostics of the first n lines number at most n |
| BankParser.LineErrors | src/core/bank/BankParser.ts:71-72 | the per-line errors, in order: as many as are counted, each an error that is not a header notice |
| BankParser.Notices | src/core/bank/BankParser.ts:77-79 | the per-line diagnostics that are neither header notices nor errors |
| BankParser.KeptDiags | src/core/bank/BankParser.ts:67-80 | the diagnostics that survive the loop are no more than the line diagnostics |
| BankParser.FirstSeen | src/core/bank/BankParser.ts:63 | the keys of the competence counter, in insertion order |
| BankParser.FirstSeenMembers | src/core/bank/BankParser.ts:63 | the counter's keys are exactly the competences that occur, each once |
| BankParser.ModeOf | src/core/bank/BankParser.ts:117-124 | the max search returns a key of the counter holding its count, no key has a larger count, and no key is found only when every count is 0 |
| BankParser.CompCountsDomain | src/core/bank/BankParser.ts:60-64 | the counter has an entry for exactly the competences carried by rows |
| BankParser.CompCountsAreFrequencies | src/core/bank/BankParser.ts:60-64 | each entry of the counter is the number of rows carrying that competence |
| BankParser.Parse | src/core/bank/BankParser.ts:26-127 | `parse` over the two decodings of the file returns exactly the specification result Expected (rows, assembled diagnostics, reported competence) |
| BankParser.ParseWith | src/core/bank/BankParser.ts:27-126 | the body of `parse`, for any line parser: the fallback choice, the loop, the header count, summary and truncation notices, and the max search produce Expected |
| BankParser.Summarise | src/core/bank/BankParser.ts:83-114 | after the loop: the header count is put in front of the fallback notice and the kept diagnostics, then the summary and, past the cap, the truncation notice are appended |
| BankParser.ScanLines | src/core/bank/BankParser.ts:52-81 | the loop leaves the rows of all lines, the kept diagnostics, the error and header counts, and the competence counter with its key order |
| BankParser.ScanLine | src/core/bank/BankParser.ts:53-80 | one pass of the loop keeps that invariant for one more line, numbered i + 1 |
| BankParser.AddRow | src/core/bank/BankParser.ts:56-64 | a row is appended and its competence counted, with a new key placed last |
| BankParser.AddDiag | src/core/bank/BankParser.ts:67-80 | a header notice is only counted; an error is counted and kept while the count is at most 50; anything else is kept |
| BankParser.MostFrequent | src/core/bank/BankParser.ts:117-124 | the max-search loop over the counter's entries returns ModeOf's winner: a key replaces the winner only on a strictly larger count |
| BankParser.DiagStep | src/core/bank/BankParser.ts:67-80 | one more line diagnostic moves each count, and the kept and per-kind lists, by exactly that diagnostic |
| BankParser.KeptNoHeaders | src/core/bank/BankParser.ts:69-70 | no per-line BANK_HEADER diagnostic is kept |
| BankParser.KeptErrors | src/core/bank/BankParser.ts:71-77 | the kept errors are exactly the first min(50, errorCount) per-line errors, in order |
| BankParser.KeptNotices | src/core/bank/BankParser.ts:77-79 | every diagnostic that is neither a header notice nor an error (the warnings) is kept, in order, with no cap |
| BankParser.KeptSubset | src/core/bank/BankParser.ts:67-80 | every kept diagnostic is one of the line diagnostics |
| BankParser.DiagnosticsLayout | src/core/bank/BankParser.ts:83-114 | the output is: BANK_HEADER_COUNT first when there were headers, then the fallback notice when it was taken, then the kept diagnostics, then the summary (warn exactly when errors > 0, with the totals), then BANK_ERRORS_TRUNCATED exactly when errors > 50 |
| BankParser.RowLines | src/core/bank/BankParser.ts:52-58 | the line number of each row, one per row |
| BankParser.LineRowsOrigin | src/core/bank/BankParser.ts:52-58 | every row is the row the line parser gave for its line (numbered index + 1), and the line numbers strictly increase |
| BankParser.LineDiagsOrigin | src/core/bank/BankParser.ts:52-67 | every line diagnostic is the one the line parser gave for some line |
| BankParser.BankLineRows | src/core/bank/parseLine.ts:125-138 | parseBankLine's rows come from the bank, with high confidence and their own line number |
| BankParser.RowsOrigin | src/core/bank/BankParser.ts:46-65 | the returned rows are banco rows with high confidence, each carrying the number of the line it came from, in strictly increasing line order |
| BankParser.ModeNone | src/core/bank/BankParser.ts:117-124 | no competence is reported exactly when no row carries one |
| BankParser.ModeMostFrequent | src/core/bank/BankParser.ts:117-124 | the reported competence is one of the rows' and none occurs more often |
| BankParser.ModeFirstOnTie | src/core/bank/BankParser.ts:117-124 | on a tie the competence met first wins: every competence first met before it occurs strictly fewer times |
| BankParser.ModeOfEarlier | src/core/bank/BankParser.ts:119-124 | in the max search, a key before the winner has a strictly smaller count |
| BankParser.FirstSeenOrder | src/core/bank/BankParser.ts:119 | a competence met before the first occurrence of c comes before c in the counter's key order |
| BankParser.FallbackOnlyFromLimit | src/core/bank/BankParser.ts:34-43 | a BANK_ENCODING_FALLBACK in the output comes only from more than ten U+FFFD characters |
| BankParser.FallbackIff | src/core/bank/BankParser.ts:34-43 | BANK_ENCODING_FALLBACK is emitted exactly when the UTF-8 decoding holds more than ten U+FFFD characters |
| CsvReport.EventOf | src/core/prefeitura/extractFromCsvReport.ts:76-79 | the event code is digits, padded to at least three |
| CsvReport.EventOfValue | src/core/prefeitura/extractFromCsvReport.ts:76-79 | no event without an "Evento:" marker followed by 1–3 digits; with one, the code is those digits' number with only leading zeros added |
| CsvReport.DataValue | src/core/prefeitura/extractFromCsvReport.ts:97-111 | an amount is read only from a line that has a double-quoted `[\d.,]+` field |
| CsvReport.Step | src/core/prefeitura/extractFromCsvReport.ts:51-58 | every line, blank or not, counts toward totalLines, exactly once |
| CsvReport.Scan | src/core/prefeitura/extractFromCsvReport.ts:49-131 | after n lines, totalLines is n |
| CsvReport.ExtractFromCsvReport | src/core/prefeitura/extractFromCsvReport.ts:25-166 | `extractFromCsvReport(text)` returns the specification result Report over the report's own recognisers |
| CsvReport.ExtractWith | src/core/prefeitura/extractFromCsvReport.ts:26-165 | the loop keeps its state equal to Scan of the lines read so far; then the summary, the failure error when no row was extracted, and the competence are returned |
| CsvReport.ScanLine | src/core/prefeitura/extractFromCsvReport.ts:52-130 | one pass of the loop body, with each `continue` as an early return, is Step |
| CsvReport.ScanCounters | src/core/prefeitura/extractFromCsvReport.ts:86-129 | extractedRows equals the number of rows, and every detected data line is extracted or discarded: dataLinesDetected = extracted + discardedNoValue + discardedNoMatricula |
| CsvReport.StepCounters | src/core/prefeitura/extractFromCsvReport.ts:86-129 | one line keeps those counters in agreement |
| CsvReport.CompetenceAt | src/core/prefeitura/extractFromCsvReport.ts:61-73 | entry k of the per-line competences is what line k offers |
| CsvReport.EventAt | src/core/prefeitura/extractFromCsvReport.ts:76-82 | entry k of the per-line events is what line k announces |
| CsvReport.ScanCompetence | src/core/prefeitura/extractFromCsvReport.ts:60-73 | the competence is set once, from the first non-blank line where a competence pattern matches, and is absent exactly when no line has one |
| CsvReport.CompetenceStep | src/core/prefeitura/extractFromCsvReport.ts:61-73 | one line keeps the first competence seen |
| CsvReport.EventoStep | src/core/prefeitura/extractFromCsvReport.ts:76-82 | one line keeps the last event seen |
| CsvReport.StepCompetence | src/core/prefeitura/extractFromCsvReport.ts:61-73 | a line's competence is taken only while none is known |
| CsvReport.StepEvento | src/core/prefeitura/extractFromCsvReport.ts:76-82 | an event line sets the event in force and adds it to the set of events seen; any other line leaves both alone |
| CsvReport.ScanEvento | src/core/prefeitura/extractFromCsvReport.ts:76-82 | the event in force is that of the last event line so far, and there is none before the first |
| CsvReport.ScanEventos | src/core/prefeitura/extractFromCsvReport.ts:80 | the set of events seen is exactly the set of events the event lines announce |
| CsvReport.RowFlagAt | src/core/prefeitura/extractFromCsvReport.ts:85-111 | flag k says whether line k is a data line that yields a row |
| CsvReport.StepRows | src/core/prefeitura/extractFromCsvReport.ts:76-130 | only a data line with a matricula of at least 3 characters and an amount that reads adds a row, exactly one: prefeitura, high confidence, with the competence and event in force and the trimmed line as raw; event lines never do |
| CsvReport.ScanRows | src/core/prefeitura/extractFromCsvReport.ts:51-131 | the rows are exactly those of the data lines, in input order |
| CsvReport.RowMeta | src/core/prefeitura/extractFromCsvReport.ts:113-126 | a row's competence is the first offered up to its line, and its event the last announced up to its line |
| CsvReport.NoShortMatricula | src/core/prefeitura/extractFromCsvReport.ts:90-94 | with a matricula recogniser that never gives fewer than 3 characters, discardedNoMatricula stays 0 |
| CsvReport.StepNoShortMatricula | src/core/prefeitura/extractFromCsvReport.ts:90-94 | one line, with such a recogniser, discards nothing for its matricula |
| CsvReport.MatriculaGuardDead | src/core/prefeitura/extractFromCsvReport.ts:91-94 | the report's matricula pattern needs at least 3 characters, so the length discard never fires: discardedNoMatricula is always 0 |
| CsvReport.ReportDiagnostics | src/core/prefeitura/extractFromCsvReport.ts:133-163 | one prefeitura_csv_v1_summary comes first, info exactly when rows were extracted and error otherwise, carrying totalLines, extractedRows and eventosVistosCount = the number of distinct event codes; prefeitura_extraction_failed (error) follows exactly when no row was extracted |
| PrefeituraExtractor.Split | src/core/prefeitura/PrefeituraExtractor.ts:67 | `split('.')` yields at least one piece |
| PrefeituraExtractor.SplitLast | src/core/prefeitura/PrefeituraExtractor.ts:67-71 | the last piece is the tail after the last separator, or all of the name when there is none; there is one piece exactly when there is no separator |
| PrefeituraExtractor.SplitLastPiece | src/core/prefeitura/PrefeituraExtractor.ts:67-71 | the last piece holds no separator and ends the name |
| PrefeituraExtractor.SplitCount | src/core/prefeitura/PrefeituraExtractor.ts:67-68 | there is one piece exactly when there is no separator |
| PrefeituraExtractor.SplitLastSeparator | src/core/prefeitura/PrefeituraExtractor.ts:67-71 | with two pieces or more, a separator comes just before the last piece |
| PrefeituraExtractor.GetExtension | src/core/prefeitura/PrefeituraExtractor.ts:66-72 | the extension holds no '.' and is no longer than the name |
| PrefeituraExtractor.GetExtensionLastDot | src/core/prefeitura/PrefeituraExtractor.ts:66-72 | '' for a name with no '.'; otherwise the text after the last '.', lower-cased ('' for a trailing dot) |
| PrefeituraExtractor.GetExtensionOfSuffix | src/core/prefeitura/PrefeituraExtractor.ts:66-72 | a stem, a '.' and a suffix without '.' give the lower-cased suffix: "Folha.CSV" gives "csv" |
| PrefeituraExtractor.Extract | src/core/prefeitura/PrefeituraExtractor.ts:29-61 | format csv_report_v1 exactly when the extension is 'csv', and then the CSV report's rows, diagnostics and competence unchanged; otherwise zero rows, one error prefeitura_unsupported_format, no competence and format unknown |
| PrefeituraExtractor.CsvAnyCase | src/core/prefeitura/PrefeituraExtractor.ts:30-41 | a ".csv" name in any letter case selects the CSV report extractor |
| PrefeituraExtractor.NoExtensionRefused | src/core/prefeitura/PrefeituraExtractor.ts:44-69 | a name without '.' is refused as unsupported |
| Patterns.Leftmost | src/core/prefeitura/connectors/text/parseTextReport.ts:18 | the leftmost position where a pattern matches: it matches there and at no earlier position, and None means no position matches (the search of a non-global regex) |
| Patterns.MatriculaEnd | src/core/prefeitura/connectors/text/parseTextReport.ts:17-18 | a match of `\d{1,6}-\d{1,3}` at p, followed by a non-digit, ends where matricula text ends |
| Patterns.MatriculaSlice | src/core/prefeitura/connectors/text/parseTextReport.ts:17-18 | a digit run of 1–6, a hyphen and a digit run of 1–3 cut out of a line make matricula text followed by a non-digit |
| Patterns.MatriculaIntro | src/core/prefeitura/connectors/text/parseTextReport.ts:15-18 | digits, one hyphen and digits, in the lengths the pattern allows, are matricula text |
| Patterns.MatriculaEndComplete | src/core/prefeitura/connectors/text/parseTextReport.ts:17-18 | every matricula text followed by a non-digit is recognised whole (partner of MatriculaEnd) |
| Patterns.DigitRunExact | src/core/prefeitura/connectors/text/parseTextReport.ts:17-18 | a run of exactly n digits ended by the end or a non-digit is measured as n |
| Patterns.CsvMatricula | src/core/prefeitura/extractFromCsvReport.ts:45 | `^(\d{1,6}-\d{1,3}),`: the match is matricula text of at least 3 characters that starts the line and is followed by a comma |
| Patterns.CsvMatriculaComplete | src/core/prefeitura/extractFromCsvReport.ts:85-88 | every line made of a matricula, a comma and anything is recognised, with that matricula |
| Patterns.MatriculaStart | src/core/prefeitura/connectors/text/parseTextReport.ts:17 | `^\s*(\d{1,6}-\d{1,3})\b`: the capture is matricula text preceded only by white space and followed by a word boundary |
| Patterns.MatriculaAnywhere | src/core/prefeitura/connectors/text/parseTextReport.ts:18 | `\b(\d{1,6}-\d{1,3})\b`: the capture is matricula text, and None means no position holds a bounded matricula |
| Patterns.StartImpliesAnywhere | src/core/prefeitura/connectors/text/parseTextReport.ts:109-115 | where the start pattern matches, the anywhere pattern matches too |
| Patterns.GroupsEnd | src/core/prefeitura/connectors/text/parseTextReport.ts:23 | the greedy `(?:\.\d{3})*` covers only digits and points |
| Patterns.MoneyAt | src/core/prefeitura/connectors/text/parseTextReport.ts:23 | a money match at p is pt-BR money text |
| Patterns.MoneyMatchesFrom | src/core/prefeitura/connectors/text/parseTextReport.ts:23 | every match of the global money pattern is money text |
| Patterns.MoneyMatches | src/core/prefeitura/connectors/text/parseTextReport.ts:119 | `line.match(VALOR_BR_REGEX)`: every match is money text |
| Patterns.MoneyMatchesParse | src/core/prefeitura/connectors/text/parseTextReport.ts:119-122 | every money match reads back through parseBRL as the amount its digits spell, so none is filtered out as null |
| Patterns.FindCpf | src/core/prefeitura/connectors/text/parseTextReport.ts:39 | the leftmost `\d{3}\.\d{3}\.\d{3}-\d{2}`: a CPF there and at no earlier position; None means none anywhere |
| Patterns.EventoAt | src/core/prefeitura/connectors/text/parseTextReport.ts:28 | the capture of an "Evento:" marker (any case, then white space) is 1 to maxDigits digits |
| Patterns.FindEvento | src/core/prefeitura/connectors/text/parseTextReport.ts:28 | the capture of the leftmost marker; None means no position holds one |
| Patterns.FirstSlash | src/core/prefeitura/connectors/text/parseTextReport.ts:33 | the leftmost `\b\d{2}/\d{4}\b`, and no earlier one |
| Patterns.FirstCompact | src/core/prefeitura/connectors/text/parseTextReport.ts:34 | the leftmost `\b` + a month 01–12 + four digits + `\b`, and no earlier one |
| Patterns.DetectCompetencia | src/core/prefeitura/connectors/text/parseTextReport.ts:384-394 | the competence found is MM/YYYY text |
| Patterns.DetectCompetenciaPrecedence | src/core/prefeitura/connectors/text/parseTextReport.ts:384-394 | the slash form takes precedence: wherever it occurs, the result is the leftmost slash form, even when a compact form comes earlier |
| Patterns.DetectCompetenciaNone | src/core/prefeitura/connectors/text/parseTextReport.ts:384-394 | no competence exactly when neither form occurs anywhere |
| Patterns.CompactMonth | src/core/prefeitura/connectors/text/parseTextReport.ts:34 | a compact competence, when it is the one found, has a month 01–12 |
| Patterns.NumRun | src/core/prefeitura/extractFromCsvReport.ts:46 | the run of `[\d.,]` at p, taken whole |
| Patterns.QuotedAt | src/core/prefeitura/extractFromCsvReport.ts:46 | a quoted field: an opening quote, one or more of `[\d.,]`, and a closing quote |
| Patterns.QuotedFrom | src/core/prefeitura/extractFromCsvReport.ts:46 | every capture of the global quoted-field pattern is non-empty and made of `[\d.,]` |
| Patterns.QuotedFields | src/core/prefeitura/extractFromCsvReport.ts:97 | `matchAll(valorEntreAspasRegex)`: every capture is non-empty |
| SheetColumns.SheetTests | src/core/prefeitura/connectors/sheet/detectSheetColumns.ts:48-79 | the detector's cell tests: the given matricula, monetary and CPF readers, the name test and the short-code test |
| SheetColumns.Count | src/core/prefeitura/connectors/sheet/detectSheetColumns.ts:45-79 | one cell adds at most 1 to each kind of hit; only a non-negative amount counts, and it adds its value to the column's sum |
| SheetColumns.TallyBounds | src/core/prefeitura/connectors/sheet/detectSheetColumns.ts:43-81 | before any sentinel is written, every hit counter of a column lies between 0 and the number of rows, and the sum is never negative |
| SheetColumns.NoMatriculaHits | src/core/prefeitura/connectors/sheet/detectSheetColumns.ts:48-50 | a column has no matricula hit exactly when none of its cells reads as a matricula |
| SheetColumns.MaxLen | src/core/prefeitura/connectors/sheet/detectSheetColumns.ts:30 | the widest row's length: no row is longer, and some row has it |
| SheetColumns.FirstMax | src/core/prefeitura/connectors/sheet/detectSheetColumns.ts:175-187 | the first index holding the maximum: no entry is larger, and every earlier entry is strictly smaller |
| SheetColumns.IndexOfMax | src/core/prefeitura/connectors/sheet/detectSheetColumns.ts:175-187 | `indexOfMax`'s loop, moving only on a strictly larger value, returns FirstMax |
| SheetColumns.Candidates | src/core/prefeitura/connectors/sheet/detectSheetColumns.ts:105-111 | the candidates are the columns whose amount hits, after the exclusions, are positive, each with its hits and sum |
| SheetColumns.CandidatesIncreasing | src/core/prefeitura/connectors/sheet/detectSheetColumns.ts:106-111 | the candidates come in strictly increasing column order |
| SheetColumns.CandidateFor | src/core/prefeitura/connectors/sheet/detectSheetColumns.ts:107-111 | a column with positive amount hits is among the candidates |
| SheetColumns.CandidatesComplete | src/core/prefeitura/connectors/sheet/detectSheetColumns.ts:105-111 | every column with positive amount hits is a candidate, once, in column order |
| SheetColumns.FirstBest | src/core/prefeitura/connectors/sheet/detectSheetColumns.ts:117-123 | the candidate the stable sort puts first: none sorts before it (larger sum, then more hits), and it sorts strictly before every earlier candidate |
| SheetColumns.BestCandidate | src/core/prefeitura/connectors/sheet/detectSheetColumns.ts:117-123 | the selection of the sorted list's first element returns FirstBest |
| SheetColumns.ExcludeValor | src/core/prefeitura/connectors/sheet/detectSheetColumns.ts:93-103 | the exclusions keep the number of columns |
| SheetColumns.ExcludeValorKeepsOthers | src/core/prefeitura/connectors/sheet/detectSheetColumns.ts:93-103 | the exclusions touch only the amount hits and sums: of the matricula column and of every column with CPF hits ≥ 0.3 × rows |
| SheetColumns.MainRoles | src/core/prefeitura/connectors/sheet/detectSheetColumns.ts:84-124 | the two required roles, when found, are columns of the grid |
| SheetColumns.Tallies | src/core/prefeitura/connectors/sheet/detectSheetColumns.ts:36-81 | one tally per column |
| SheetColumns.CandidatesEmpty | src/core/prefeitura/connectors/sheet/detectSheetColumns.ts:105-115 | the candidate list is empty exactly when no column is eligible for the amounts (not the matricula column, not CPF-like, with a non-negative amount) |
| SheetColumns.FirstMaxZero | src/core/prefeitura/connectors/sheet/detectSheetColumns.ts:84-89 | with counts never negative, the first maximum is zero exactly when no column has a matricula hit |
| SheetColumns.MainRolesNone | src/core/prefeitura/connectors/sheet/detectSheetColumns.ts:84-115 | the required roles are missing exactly when no column has a matricula hit or no column is eligible for the amounts |
| SheetColumns.ChooseNone | src/core/prefeitura/connectors/sheet/detectSheetColumns.ts:84-115 | null exactly when no cell reads as a matricula or no column other than the matricula column and the CPF-like ones has a non-negative amount |
| SheetColumns.EligibleCandidate | src/core/prefeitura/connectors/sheet/detectSheetColumns.ts:93-111 | after the exclusions a column keeps positive amount hits exactly when it is eligible, and then its tally is unchanged |
| SheetColumns.MatriculaRole | src/core/prefeitura/connectors/sheet/detectSheetColumns.ts:84-89 | the matricula column is the lowest-index column with the maximum matricula hit count, and that count is positive |
| SheetColumns.ValorRole | src/core/prefeitura/connectors/sheet/detectSheetColumns.ts:91-124 | the amount column is eligible (never the matricula column, never CPF-like), no eligible column has a larger sum, or an equal sum with more hits, and every earlier eligible column sorts strictly after it |
| SheetColumns.ChooseRoles | src/core/prefeitura/connectors/sheet/detectSheetColumns.ts:84-160 | the detection's matricula column is the first with the most matricula hits, its amount column the best eligible one, and its confidence the tier of their hit counts |
| SheetColumns.PickOptionalDistinct | src/core/prefeitura/connectors/sheet/detectSheetColumns.ts:126-167 | each optional role avoids the matricula and amount columns and the roles chosen before it; an event column is reported only with a hit, a name or CPF column only with more than 0.3 × rows hits |
| SheetColumns.PickEventoAvoids | src/core/prefeitura/connectors/sheet/detectSheetColumns.ts:127-130 | a positive event count belongs to a column other than the matricula and amount ones |
| SheetColumns.PickNomeAvoids | src/core/prefeitura/connectors/sheet/detectSheetColumns.ts:133-137 | a positive name count belongs to a column other than the matricula, amount and event-with-hits ones |
| SheetColumns.PickCpfAvoids | src/core/prefeitura/connectors/sheet/detectSheetColumns.ts:140-146 | a positive CPF count belongs to a column other than the matricula, amount, event-with-hits and name-with-hits ones |
| SheetColumns.ChooseDistinct | src/core/prefeitura/connectors/sheet/detectSheetColumns.ts:126-169 | all reported columns (matricula, valor, evento, nome, cpf) are pairwise distinct; evento is reported only with a positive count, nome and cpf only above 0.3 × rows |
| SheetColumns.ChooseNoEvento | src/core/prefeitura/connectors/sheet/detectSheetColumns.ts:127-130 | when no event column is reported, no column other than the matricula and amount ones has an event hit |
| SheetColumns.TierMonotone | src/core/prefeitura/connectors/sheet/detectSheetColumns.ts:148-160 | more matricula or amount hits never lower the confidence (high when both ratios are ≥ 0.7, else medium when both are ≥ 0.4, else low) |
| SheetColumns.DetectNoMatricula | src/core/prefeitura/connectors/sheet/detectSheetColumns.ts:84-89 | no detection when no cell of the grid reads as a matricula |
| SheetColumns.TalliesBounded | src/core/prefeitura/connectors/sheet/detectSheetColumns.ts:43-81 | the tables the choice starts from hold hit counts between 0 and the number of rows, and non-negative sums |
| SheetColumns.DetectSheetColumns | src/core/prefeitura/connectors/sheet/detectSheetColumns.ts:22-170 | `detectSheetColumns(rows)` returns Detect: null for no rows or only empty rows, otherwise the choice over the counted tables |
| SheetColumns.CountColumns | src/core/prefeitura/connectors/sheet/detectSheetColumns.ts:36-81 | the nested counting loop fills a fresh array with exactly the per-column tallies of all rows |
| SheetColumns.CountRow | src/core/prefeitura/connectors/sheet/detectSheetColumns.ts:44-80 | one row's cells each add to their own column, and the columns past its end are left alone |
| SheetColumns.TallyCell | src/core/prefeitura/connectors/sheet/detectSheetColumns.ts:45-79 | the five tests of one cell, each adding to its own counter, give Count |
| SheetColumns.ChooseColumns | src/core/prefeitura/connectors/sheet/detectSheetColumns.ts:83-169 | the choosing pass, writing the -1 sentinels into the tables as it goes, returns Choose of the counted tables; the tables are unchanged when no column has a matricula hit, and otherwise hold ExcludeValor of the counted tables |
| SheetColumns.PickOptionalColumns | src/core/prefeitura/connectors/sheet/detectSheetColumns.ts:126-146 | the event, name and CPF choices on copies of the hit tables give PickOptional |
| SheetColumns.PickEventoColumn | src/core/prefeitura/connectors/sheet/detectSheetColumns.ts:127-130 | the event choice on a copy of the event hits gives PickEvento |
| SheetColumns.PickNomeColumn | src/core/prefeitura/connectors/sheet/detectSheetColumns.ts:133-137 | the name choice on a copy of the name hits gives PickNome |
| SheetColumns.PickCpfColumn | src/core/prefeitura/connectors/sheet/detectSheetColumns.ts:140-146 | the CPF choice on a copy of the CPF hits gives PickCpf |
| SheetColumns.ExcludeValorColumns | src/core/prefeitura/connectors/sheet/detectSheetColumns.ts:93-103 | the sentinel loop leaves the tables equal to ExcludeValor of the old tables |
| SheetColumns.CollectCandidates | src/core/prefeitura/connectors/sheet/detectSheetColumns.ts:105-111 | the candidate loop returns Candidates of the tables |
| XlsxTable.RowEvento | src/core/prefeitura/connectors/xlsx/xlsxTableV1.ts:110-116 | an event read from a row is exactly three digits (one to three digits padded with zeros) |
| XlsxTable.RowNome | src/core/prefeitura/connectors/xlsx/xlsxTableV1.ts:132-139 | a name is read only from a detected name column the row actually reaches, and is at least three letters or spaces |
| XlsxTable.RowNomeAgrees | src/core/prefeitura/connectors/xlsx/xlsxTableV1.ts:132-139 | on every row whose name cell is present, the corrected reading equals the reading as written |
| XlsxTable.RowNomeUndefined | src/core/prefeitura/connectors/xlsx/xlsxTableV1.ts:134-137 | a row too short to reach the name column gets the name "undefined" as written, and no name once corrected |
| XlsxTable.DigitsOnly | src/core/prefeitura/connectors/xlsx/xlsxTableV1.ts:144 | removing the non-digits leaves only digits and never lengthens the text |
| XlsxTable.DigitsOnlyOfDigits | src/core/prefeitura/connectors/xlsx/xlsxTableV1.ts:144 | a text of digits loses nothing |
| XlsxTable.DigitsOnlyAppend | src/core/prefeitura/connectors/xlsx/xlsxTableV1.ts:144 | removing non-digits distributes over concatenation |
| XlsxTable.FormatCpf | src/core/prefeitura/connectors/xlsx/xlsxTableV1.ts:146 | the formatted CPF has 14 characters |
| XlsxTable.FormatCpfRoundTrip | src/core/prefeitura/connectors/xlsx/xlsxTableV1.ts:144-146 | eleven digits formatted read as a CPF (ddd.ddd.ddd-dd) and give back exactly the same eleven digits once the separators are removed |
| XlsxTable.FormatCpfShape | src/core/prefeitura/connectors/xlsx/xlsxTableV1.ts:146 | eleven digits formatted have the ddd.ddd.ddd-dd shape |
| XlsxTable.FormatCpfDigits | src/core/prefeitura/connectors/xlsx/xlsxTableV1.ts:144-146 | eleven digits formatted give back the same digits when the separators are removed |
| XlsxTable.SeparatorDropped | src/core/prefeitura/connectors/xlsx/xlsxTableV1.ts:144 | a non-digit between two texts adds nothing to their digits |
| XlsxTable.RowCpf | src/core/prefeitura/connectors/xlsx/xlsxTableV1.ts:141-148 | a CPF is read only when a CPF column is detected, and is 14 characters long |
| XlsxTable.RowCpfShape | src/core/prefeitura/connectors/xlsx/xlsxTableV1.ts:141-148 | a CPF read from a row has the ddd.ddd.ddd-dd shape and the same digits as the rendered cell |
| XlsxTable.Raw | src/core/prefeitura/connectors/xlsx/xlsxTableV1.ts:161-163 | the raw reference is a prefix of the row's JSON text of at most 500 characters |
| XlsxTable.DetermineExtracao | src/core/prefeitura/connectors/xlsx/xlsxTableV1.ts:233-253 | failure exactly when a zero-rows or read error is among the diagnostics or nothing was extracted; complete only with at least half the rows extracted, a confidence that is not low and a competence; partial otherwise |
| XlsxTable.ExtractFromXlsx | src/core/prefeitura/connectors/xlsx/xlsxTableV1.ts:26-214 | the extraction after the workbook is read returns Extract: the early exits, the detection, the row pass and the closing diagnostics; a row's name is read with the corrected RowNome (see "## Findings") |
| XlsxTable.ExtractDetected | src/core/prefeitura/connectors/xlsx/xlsxTableV1.ts:80-214 | once columns are detected, the method returns Detected, whose rows read names with the corrected RowNome |
| XlsxTable.FinishExtraction | src/core/prefeitura/connectors/xlsx/xlsxTableV1.ts:167-214 | the closing steps (event warning, zero-rows error or summary, verdict) return Finish |
| XlsxTable.ExtractRow | src/core/prefeitura/connectors/xlsx/xlsxTableV1.ts:109-165 | one iteration of the row loop, with its two `continue` exits, returns Step, which reads the name with the corrected RowNome |
| XlsxTable.StepEffect | src/core/prefeitura/connectors/xlsx/xlsxTableV1.ts:109-165 | a grid row sets the event in force when it announces one, whatever becomes of the row; a kept row adds one row built with that event, any other adds one to the discard counter |
| XlsxTable.ScanCounts | src/core/prefeitura/connectors/xlsx/xlsxTableV1.ts:105-165 | extracted rows plus discarded grid rows equal the grid rows scanned |
| XlsxTable.Eventos | src/core/prefeitura/connectors/xlsx/xlsxTableV1.ts:110-116 | one announced event (or none) per grid row scanned |
| XlsxTable.EventoAt | src/core/prefeitura/connectors/xlsx/xlsxTableV1.ts:110-116 | the k-th entry is the event grid row k announces |
| XlsxTable.ScanEvento | src/core/prefeitura/connectors/xlsx/xlsxTableV1.ts:107-116 | the event in force after the pass is the last one any grid row announced, none if none did |
| XlsxTable.EventoStep | src/core/prefeitura/connectors/xlsx/xlsxTableV1.ts:110-116 | one grid row keeps the event in force equal to the last announced one |
| XlsxTable.KeptFlags | src/core/prefeitura/connectors/xlsx/xlsxTableV1.ts:118-130 | one keep-or-discard flag per grid row scanned |
| XlsxTable.KeptAt | src/core/prefeitura/connectors/xlsx/xlsxTableV1.ts:118-130 | the k-th flag says whether grid row k has a matricula and an amount |
| XlsxTable.ScanRows | src/core/prefeitura/connectors/xlsx/xlsxTableV1.ts:109-165 | the rows are those of the kept grid rows, one each, in grid order |
| XlsxTable.GridRowMeta | src/core/prefeitura/connectors/xlsx/xlsxTableV1.ts:150-160 | a kept row carries the last event announced up to its grid row, the detection's confidence and the sheet's competence |
| XlsxTable.ExtractEarlyExit | src/core/prefeitura/connectors/xlsx/xlsxTableV1.ts:49-78 | an empty grid, or one where no columns are detected, gives no rows, the sheet selection and the zero-rows error, and failure |
| XlsxTable.OpeningNoError | src/core/prefeitura/connectors/xlsx/xlsxTableV1.ts:33-102 | the diagnostics before the closing ones hold no error |
| XlsxTable.FinishOutcome | src/core/prefeitura/connectors/xlsx/xlsxTableV1.ts:167-214 | no rows means failure and the zero-rows error; otherwise the summary with the counts, and complete exactly when at least half the rows were extracted, confidence is not low and a competence was found |
| XlsxTable.ExtractOutcome | src/core/prefeitura/connectors/xlsx/xlsxTableV1.ts:63-214 | with columns detected, the rows are those of the pass, extracted plus discarded rows add up to the grid, failure exactly when no rows, complete exactly under the three conditions |
| XlsxTable.DetectedOutcome | src/core/prefeitura/connectors/xlsx/xlsxTableV1.ts:80-214 | the same outcome for any detection |
| TextLines.TextEvent | src/core/prefeitura/connectors/text/parseTextReport.ts:85-90 | an event code read from a line is three or four digits |
| TextLines.TextEventValue | src/core/prefeitura/connectors/text/parseTextReport.ts:85-90 | a code exists exactly when the line has an "Evento:" marker with digits; it is those captured digits behind leading zeros only, so it denotes the same number |
| TextLines.ParsedAll | src/core/prefeitura/connectors/text/parseTextReport.ts:119-122 | keeping only the matches that parse gives at most one value per match |
| TextLines.ParsedAllSome | src/core/prefeitura/connectors/text/parseTextReport.ts:119-122 | when every match parses, there is one value per match, each the parse of its match, in order |
| TextLines.ValoresAll | src/core/prefeitura/connectors/text/parseTextReport.ts:119-122 | the amounts of a line are one per pt-BR money match, each the cents that match denotes, in order |
| TextLines.LastPositive | src/core/prefeitura/connectors/text/parseTextReport.ts:452-466 | the index of the last positive amount: it is positive and every later amount is not; none exactly when no amount is positive |
| TextLines.PositivesLast | src/core/prefeitura/connectors/text/parseTextReport.ts:452-466 | the filtered positive amounts are empty exactly when there is no last positive one, and otherwise end with it |
| TextLines.ChooseValue | src/core/prefeitura/connectors/text/parseTextReport.ts:452-466 | no value is chosen exactly when there are no amounts |
| TextLines.ChooseValueSpec | src/core/prefeitura/connectors/text/parseTextReport.ts:452-466 | the chosen value is the only amount, else the last positive amount, else the last amount; it is always one of the amounts |
| TextLines.StripLeadingMatricula | src/core/prefeitura/connectors/text/parseTextReport.ts:372 | removing a leading matricula leaves a suffix of the text |
| TextLines.StripMatriculaName | src/core/prefeitura/connectors/text/parseTextReport.ts:372 | a matricula followed by white space and a name loses exactly the matricula and the white space |
| TextLines.StripNoMatricula | src/core/prefeitura/connectors/text/parseTextReport.ts:372 | text that does not start with a digit is left as it is |
| TextLines.ExtractNomeCpf | src/core/prefeitura/connectors/text/parseTextReport.ts:363-379 | a name is given only together with a CPF and is longer than two characters |
| TextLines.ExtractCpfSpec | src/core/prefeitura/connectors/text/parseTextReport.ts:363-379 | the CPF is absent exactly when no position of the line starts a CPF; otherwise it is the leftmost CPF-shaped text of the line |
| TextLines.ExtractNomeSpec | src/core/prefeitura/connectors/text/parseTextReport.ts:363-379 | the name occurs in the line wholly before its first CPF, and is already trimmed |
| TextLines.NomeBeforeOccurs | src/core/prefeitura/connectors/text/parseTextReport.ts:370-372 | the text before the CPF, trimmed, stripped of a matricula and trimmed again, occurs before the CPF |
| TextLines.HeaderNotDigit | src/core/prefeitura/connectors/text/parseTextReport.ts:338-358 | no header line starts with a digit, so the header test never hides a line that starts with a matricula |
| TextLines.FoldedNotDigit | src/core/prefeitura/connectors/text/parseTextReport.ts:338-358 | text matching a header word that does not start with a digit does not start with a digit |
| TextReport.Raw | src/core/prefeitura/connectors/text/parseTextReport.ts:149 | the raw reference is the line's first 300 characters, or the whole line when shorter |
| TextReport.Pairs | src/core/prefeitura/connectors/text/parseTextReport.ts:249-268 | n rows, the i-th pairing the i-th matricula with the i-th data |
| TextReport.ParseTextReport | src/core/prefeitura/connectors/text/parseTextReport.ts:46-57 | the result has no row exactly when neither the standard nor the column-separated pass has one |
| TextReport.ParseStandardFormat | src/core/prefeitura/connectors/text/parseTextReport.ts:62-163 | the standard pass's loop and diagnostics return Standard |
| TextReport.StandardLine | src/core/prefeitura/connectors/text/parseTextReport.ts:75-152 | one iteration of the standard loop, with its `continue` exits, returns StdStep |
| TextReport.AddDiagnostics | src/core/prefeitura/connectors/text/parseTextReport.ts:399-446 | appends the competence warning, the event warning and the closing diagnostic of StdDiags to the list it is given |
| TextReport.ParseColumnSeparatedFormat | src/core/prefeitura/connectors/text/parseTextReport.ts:173-333 | the column-separated pass's two loops and diagnostics return ColumnSeparated |
| TextReport.ColumnLine | src/core/prefeitura/connectors/text/parseTextReport.ts:186-245 | one iteration of the collecting loop returns ColStep |
| TextReport.PairColumns | src/core/prefeitura/connectors/text/parseTextReport.ts:249-268 | the pairing loop pairs the first min(matriculas, data) entries in order |
| TextReport.ColumnDiagnostics | src/core/prefeitura/connectors/text/parseTextReport.ts:271-325 | the column-separated diagnostics, in their order, are ColDiags |
| TextReport.Competences | src/core/prefeitura/connectors/text/parseTextReport.ts:80-82 | one offered competence (or none) per line read |
| TextReport.Events | src/core/prefeitura/connectors/text/parseTextReport.ts:85-90 | one announced event (or none) per line read |
| TextReport.EventFlags | src/core/prefeitura/connectors/text/parseTextReport.ts:85-90 | one event-line flag per line read |
| TextReport.CompetenceAt | src/core/prefeitura/connectors/text/parseTextReport.ts:80-82 | the k-th entry is what line k offers as competence |
| TextReport.EventAt | src/core/prefeitura/connectors/text/parseTextReport.ts:85-90 | the k-th entry is the event line k announces |
| TextReport.ObserveEffect | src/core/prefeitura/connectors/text/parseTextReport.ts:76-90 | a line keeps a known competence or else takes the line's; an event line sets the event and is counted; other lines leave both alone |
| TextReport.ContextCompetence | src/core/prefeitura/connectors/text/parseTextReport.ts:80-82 | the competence found is the first one any line offers, none if none does |
| TextReport.ContextCompetenceStep | src/core/prefeitura/connectors/text/parseTextReport.ts:80-82 | one more line keeps the competence the first one offered |
| TextReport.CompetenceStep | src/core/prefeitura/connectors/text/parseTextReport.ts:80-82 | reading a line keeps the competence the first one offered |
| TextReport.ContextEvento | src/core/prefeitura/connectors/text/parseTextReport.ts:85-90 | the event in force is the last one any line announced, none if none did |
| TextReport.ContextEventoStep | src/core/prefeitura/connectors/text/parseTextReport.ts:85-90 | one more line keeps the event in force the last one announced |
| TextReport.EventoStep | src/core/prefeitura/connectors/text/parseTextReport.ts:85-90 | reading a line keeps the event in force the last one announced |
| TextReport.ContextEventos | src/core/prefeitura/connectors/text/parseTextReport.ts:85-90 | `eventosDetectados` is the number of event lines |
| TextReport.NoEventos | src/core/prefeitura/connectors/text/parseTextReport.ts:85-90 | no event is counted exactly when no line is an event line |
| TextReport.EventosCountEvento | src/core/prefeitura/connectors/text/parseTextReport.ts:85-90 | no event is counted exactly when no event is in force |
| TextReport.StdLineRules | src/core/prefeitura/connectors/text/parseTextReport.ts:85-115 | an event line is never a data line, nor is a line with a CPF and no matricula at its start; a line starting with a matricula and without an event marker is one, with that matricula |
| TextReport.StdStepEffect | src/core/prefeitura/connectors/text/parseTextReport.ts:75-152 | a non-data line changes only the context; a data line is counted, then discarded when it has no amount, else adds one row built from the context once the line is read |
| TextReport.StdContext | src/core/prefeitura/connectors/text/parseTextReport.ts:75-90 | the standard pass keeps the same context as ContextScan |
| TextReport.StdCounters | src/core/prefeitura/connectors/text/parseTextReport.ts:93-152 | one row per extracted line, and every data line is either extracted or discarded for want of an amount |
| TextReport.StdFlags | src/core/prefeitura/connectors/text/parseTextReport.ts:93-130 | one yields-a-row flag per line read |
| TextReport.StdFlagAt | src/core/prefeitura/connectors/text/parseTextReport.ts:93-130 | the k-th flag says whether line k yields a row |
| TextReport.StdRows | src/core/prefeitura/connectors/text/parseTextReport.ts:75-152 | the rows are those of the lines that yield one, one each, in line order |
| TextReport.StdRowsStep | src/core/prefeitura/connectors/text/parseTextReport.ts:135-151 | one more line adds the row it yields, if any |
| TextReport.StdRowMeta | src/core/prefeitura/connectors/text/parseTextReport.ts:125-151 | a row carries the first competence and the last event up to its line, high confidence exactly when its line has one amount and medium otherwise, one of its line's amounts, its line cut to 300 characters, and the line's name and CPF |
| TextReport.StdMoney | src/core/prefeitura/connectors/text/parseTextReport.ts:119-130 | with the report's recognisers, a data line is discarded exactly when it holds no money text, and it has one amount per money match |
| TextReport.ColStepEffect | src/core/prefeitura/connectors/text/parseTextReport.ts:186-245 | a line is never both a matricula line and a data line; a matricula line adds its matricula, a data line its data under the event in force, any other line nothing |
| TextReport.ColContext | src/core/prefeitura/connectors/text/parseTextReport.ts:186-201 | the column-separated pass keeps the same context as ContextScan |
| TextReport.PureFlags | src/core/prefeitura/connectors/text/parseTextReport.ts:209-224 | one matricula-line flag per line read |
| TextReport.DadoFlags | src/core/prefeitura/connectors/text/parseTextReport.ts:227-244 | one data-line flag per line read |
| TextReport.ColFlagAt | src/core/prefeitura/connectors/text/parseTextReport.ts:204-244 | the k-th flags say whether line k adds a matricula, and whether it adds data |
| TextReport.ColMatriculas | src/core/prefeitura/connectors/text/parseTextReport.ts:209-224 | the collected matriculas are those of the matricula lines, in order |
| TextReport.ColDados | src/core/prefeitura/connectors/text/parseTextReport.ts:227-244 | the collected data are those of the data lines, in order |
| TextReport.ColumnRows | src/core/prefeitura/connectors/text/parseTextReport.ts:247-268 | as many rows as the shorter list, the i-th pairing the i-th matricula with the i-th data's amount and event, at medium confidence and with the competence found over the whole text |
| TextReport.StdDiagsSpec | src/core/prefeitura/connectors/text/parseTextReport.ts:399-446 | the zero-rows error exactly when nothing was extracted and the summary otherwise; the competence warning exactly when none was found; the event warning exactly when rows came without any event; never the mismatch warning; each with its severity |
| TextReport.ColDiagsSpec | src/core/prefeitura/connectors/text/parseTextReport.ts:271-325 | as StdDiagsSpec, plus the mismatch warning exactly when there are rows and the two lists differ in length |
| TextReport.ColPartsSpec | src/core/prefeitura/connectors/text/parseTextReport.ts:271-325 | the same facts over the four parts of the diagnostics list |
| TextReport.StandardOutcome | src/core/prefeitura/connectors/text/parseTextReport.ts:62-163 | the standard result: the pass's rows; zero-rows error exactly when none; competence warning exactly when no line offers one; event warning exactly when there are rows and no event line; the first competence; the number of event lines; every data line extracted or discarded |
| TextReport.NoCompetence | src/core/prefeitura/connectors/text/parseTextReport.ts:80-82 | no competence is found exactly when no line offers one |
| TextReport.ColumnOutcome | src/core/prefeitura/connectors/text/parseTextReport.ts:173-333 | the column-separated result: zero-rows error exactly when no row, mismatch warning exactly when there are rows and the lists differ, the same competence and event facts as the standard pass |
| TextReport.ParseTextReportOutcome | src/core/prefeitura/connectors/text/parseTextReport.ts:46-57 | the standard result when it has a row, the column-separated one otherwise, and the zero-rows error exactly when there is no row |
| Text.Trim | src/core/prefeitura/connectors/text/parseTextReport.ts:76 | trimming keeps no white space at either end, and gives the empty text exactly when the line is all white space |
| Text.TrimIdempotent | src/core/prefeitura/connectors/text/parseTextReport.ts:370-372 | trimming twice is trimming once |
| Text.PadStart3 | src/core/prefeitura/connectors/text/parseTextReport.ts:87 | padding keeps the text as the suffix, preceded by zeros up to three characters |
| Text.NatToStringValue | src/core/bank/parseLine.ts:85-88 | the decimal numeral of a number reads back as that number |
| Text.ValueNatToString | src/core/bank/parseLine.ts:85-88 | a canonical numeral (no leading zero unless it is "0") is the numeral of its own value |
| Text.DigitsValueLeadingZeros | src/core/prefeitura/connectors/text/parseTextReport.ts:87 | leading zeros do not change the value of a numeral |
| Text.ToLower | src/core/prefeitura/PrefeituraExtractor.ts:71 | lower-casing keeps the length and lowers each character on its own |
| Text.IndexOf | src/core/prefeitura/parseBRL.ts:32 | the first position of the character, or the length when it does not occur |
| Text.SplitLines | src/core/prefeitura/connectors/text/parseTextReport.ts:66 | splitting on line breaks gives at least one line, none holding a line feed |
| Text.SplitJoin | src/core/prefeitura/connectors/text/parseTextReport.ts:66 | joining lines without line feeds, and with no carriage return ending any but the last, and splitting again gives the same lines |
| Text.SplitFirst | src/core/prefeitura/connectors/text/parseTextReport.ts:66 | a first line ended by a line feed is split off, with a carriage return before the line feed dropped |

## Left out

- File reading and decoding are left out: `BankParser.readFileAsText`, `file.text()` and `file.arrayBuffer()`. `BankParser.Parse` takes both the UTF-8 and the Latin-1 decoding of the file as inputs; the count of U+FFFD characters is taken from the UTF-8 one. The CSV and free-text extractors take the decoded text.
- The spreadsheet library is left out: `XLSX.read`, `sheet_to_json`, `selectBestSheet` and `extractCompetenciaFromCells`. `XlsxTable.Extract` takes the grid of cells, the number of sheets and a competence reader as parameters.
- The `try`/`catch` path of `extractFromXlsx` that reports `XLSX_READ_ERROR` is left out, because it catches failures of the library calls above. `XlsxTable.DetermineExtracao` still treats that code as an error code.
- `parseSheetValue`, `parseCellAsMatricula`, `parseCellAsMonetary` and `cellLooksCpf` are not part of this model. They are parameters (`CellParsers`), and so are the cell rendering `String(cell)` and `JSON.stringify(row)`.
- Floating point is left out. Money is integer cents, `parseFloat` reads only an optional sign, digits and one point (no exponent), and `Math.round` is rounding half up on the exact decimal value. Ratio thresholds (0.7, 0.4, 0.3, 0.5) are compared by cross-multiplication. The sheet detector's `valorSums` are sums of integer cents.
- Diagnostic `message` strings are left out, and so are string-valued `details` (names, raw text, competence). Diagnostics keep their severity, their code and their integer counts.
- Text.ToLower lowers ASCII letters only, where `toLowerCase` lowers every letter; no other letter lowers to `c`, `s` or `v`, so the extension dispatch is unaffected.
- Case-insensitive matching (`/i`) folds ASCII letters and the Latin-1 accented letters only. `\b` and `\w` use ASCII word characters.
- String lengths and positions count characters, not UTF-16 code units. The model therefore assumes that no input holds a character outside the Basic Multilingual Plane. Such a character would shift or change these tests in the source:
  - the bank line's `cleanLine.length < 57` and its fixed slices (`BankLine.ParseBankLine`);
  - the pure-matricula test `trimmedLine.length < 50` (`TextLines.IsShortOrNumeric`, used by the column-separated pass);
  - the name test `withoutMatricula.length > 2` (`TextLines.ExtractNomeCpf`);
  - the 300- and 500-character cuts of raw references (`TextReport.Raw`, `XlsxTable.Raw`).
- `TextLines.IsHeaderLine` writes out the fifteen header patterns; of them only the fact that no header starts with a digit is proved (`TextLines.HeaderNotDigit`).
- `BankParser.Summarise`: the competence counter is modelled as the sequence of competences in first-seen order, which is the iteration order of `Object.entries` here because competence keys (`MM/YYYY`) are never integer-like.
- ExtractFromXlsx: its rows read a row's name with the corrected XlsxTable.RowNome, so a row too short to reach the name column gets no name, where the code as written gives it the name "undefined" (see "## Findings"; XlsxTable.RowNomeAsWritten models the code as written, and XlsxTable.RowNomeAgrees shows the two agree on every row whose name cell is present).
- ExtractDetected: the same corrected name reading as ExtractFromXlsx, through XlsxTable.MakeRow.
- ExtractRow: builds the row with the corrected name reading XlsxTable.RowNome, not the code's `!== null` test on a cell that may be missing.
- `TextReport.AddDiagnostics` returns the extended list instead of pushing into the caller's array, which has no other reference to it.
- `XlsxTable.ExtractFromXlsx`: the `extractedRows` argument of `determineExtracao` is `|rows|`, which `XlsxTable.ScanCounts` ties to the discard counter.

## Findings

| source | as written | input that shows it | evidently intended | confidence | as-written member | corrected member |
|---|---|---|---|---|---|---|
| src/core/prefeitura/connectors/xlsx/xlsxTableV1.ts:134-137 | a name cell is read whenever it is not `null`, so a row too short to reach the name column renders `String(undefined)` and takes the name "undefined" | a grid whose name column is 2, and a row holding only a matricula and an amount | a cell missing from a short row gives no name, like a `null` cell | medium, not executed | XlsxTable.RowNomeUndefined | XlsxTable.RowNome |
