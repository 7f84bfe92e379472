# Financial report validators: a Dafny model

The repository reads a photographed financial report with an OCR service. It
then checks whether the amounts listed on the page add up to the total
printed on it. This project models what runs after OCR:

- **Financial amount engine** (`scripts/financial_validator.py`, module
  `Financial`). It splits the text into lines and extracts the monetary
  amounts of each line. It tries `$`-prefixed tokens first, then falls back
  to comma-grouped numbers of at least 1000. It de-duplicates the amounts
  and flags total lines by keyword. The line holding the largest amount
  becomes the total row, and every other line is a data row. The largest
  amount of each data row is summed and compared with the total, with a
  tolerance of 10. The result carries one of four statuses: exact,
  within rounding, mismatch, or `❌ ERROR` when no data row has amounts.
- **Table validator** (`scripts/vision_validator.py`, module `Vision`). It
  normalises whitespace and drops short lines. It tokenizes signed decimals
  and detects headers, data rows and a total row with a forward
  state-machine scan. A reverse scan then has the last word on the total
  row. All data numbers are summed and compared with the total row's
  largest number, with a tolerance of 0.01. When there is no total row, a
  fallback applies: the largest number counts as the total if the numbers
  other than it add up to it.
- **Batch aggregator** (`scripts/batch_validator.py`, module `Batch`). A
  `BatchValidator` object keeps a `results` list that persists across calls.
  `ProcessAllImages` appends one summary per image, including images whose
  processing raises. Score-keeping functions compute the statistics of the
  consolidated report: valid, invalid and error counts, the success rate,
  the total discrepancy and the per-report error percentage.

Supporting modules hold the Python builtins the scripts rely on:

- `Util`: `sum`, `max`, `abs`, de-duplication through `set`, `extend`.
- `Text`: `split('\n')`, `strip`, `lower`, `in` on strings, `re.sub(r'\s+', ' ', …)`.
- `Regex`: the three `re.findall` patterns, with Python's leftmost,
  non-overlapping, backtracking semantics written out.
- `Decimal`: `float(…)` on digit strings, as exact reals.

The OCR text is the input of the model, and amounts are exact `real`s. Each
loop of the source is a `method` with a `while` loop. That loop is proved
equal to a specification function, defined by recursion on the last
element, so the invariant reads `acc == Spec(prefix)`. The properties the
code promises are lemmas about those functions.

Behaviour of the code worth noting:

- Text that is only whitespace does not give the "no text" error. Only the
  empty string does (`scripts/financial_validator.py:256`). Whitespace-only
  text gives "no amounts found".
- There is no separate "indeterminate" verdict. Two cases end with status
  `❌ ERROR` and `valid` false: a report whose only amount line becomes the
  total row, and data rows without amounts
  (`scripts/financial_validator.py:190-195`).
- Only keyword-blind magnitude decides the total row. `is_total` is
  computed but never used by the classification.
- The mismatch status `❌ ERROR EN CÁLCULO DETECTADO` contains `❌ ERROR`.
  The batch statistics therefore count every mismatching report as a
  processing error and never as an invalid report
  (`scripts/batch_validator.py:118-119`). `Batch.BatchStatistics` proves
  that, with the real engine, the invalid count and the total discrepancy
  are always zero.
- In the table validator the reverse scan overwrites whatever total row the
  forward scan found. `Vision.DetectedTotalIsLast` proves that the reverse
  scan's answer always decides the total row.

## Model

| member | source | states |
|---|---|---|
| Util.Abs | scripts/financial_validator.py:138 | `abs` is non-negative and equals `x` or `-x` |
| Util.Max | scripts/financial_validator.py:107 | `max` of a non-empty list is one of its elements and bounds all of them |
| Util.MaxUnique | scripts/financial_validator.py:121 | an element that bounds every element is the `max` |
| Util.Distinct | scripts/financial_validator.py:85 | `list(set(amounts))` has no duplicates, holds exactly the values of `amounts`, and is no longer |
| Util.FlattenMember | scripts/financial_validator.py:131-134 | a value is in the concatenation of lists exactly when it is in one of them (the `extend` loops) |
| Text.Split | scripts/financial_validator.py:48 | `split('\n')` yields at least one piece |
| Text.SplitNoNewline | scripts/financial_validator.py:48 | no piece of `split('\n')` holds a newline |
| Text.SplitJoin | scripts/financial_validator.py:48 | joining the pieces with newlines gives back the text |
| Text.StripFacts | scripts/financial_validator.py:51 | `strip` gives a slice of the line with only whitespace around it, with no whitespace at either end, empty exactly when the line is all whitespace |
| Text.RemoveAll | scripts/financial_validator.py:61 | `re.sub('[$,]', '', …)` keeps exactly the characters outside the removed class |
| Text.LowerChars | scripts/financial_validator.py:93 | `lower` maps each character by itself and keeps the length |
| Text.CollapseSpacesFacts | scripts/vision_validator.py:77 | after `re.sub(r'\s+', ' ', …)` every whitespace is one space, no two spaces are adjacent, non-blank ends are kept, and only empty text gives empty text |
| Text.CollapseKeepsText | scripts/vision_validator.py:77 | collapsing whitespace keeps every non-whitespace character, in order |
| Text.StripKeepsText | scripts/vision_validator.py:77 | `strip` keeps every non-whitespace character, in order |
| Text.StripAroundRun | scripts/vision_validator.py:77 | `strip` leaves a whitespace run between two non-spaces in place and strips each side on its own |
| Text.CollapseAfterText | scripts/vision_validator.py:77 | text ending in a non-space collapses independently of what follows it |
| Text.CollapseRun | scripts/vision_validator.py:77 | a whitespace run between two non-spaces becomes exactly one blank, neither kept nor deleted |
| Regex.MatchAt | scripts/financial_validator.py:59 | a match that starts at `i` ends after `i` |
| Regex.LastBoundary | scripts/financial_validator.py:72 | the backtracking end of `\b…\b` is the last word boundary in the range, or there is none |
| Regex.FindAll | scripts/financial_validator.py:59 | `re.findall` gives matches in order, without overlap, and no position it skips starts a match |
| Regex.Matches | scripts/financial_validator.py:59 | there is one matched text per match span, each the text of its span and shaped like its pattern |
| Regex.MatchShape | scripts/financial_validator.py:59 | each matched text has its pattern's shape |
| Regex.DollarMatchShape | scripts/financial_validator.py:59 | a `\$[\d,]+\.?\d*` match is `$`, then a digit/comma run, then an optional dot and digits |
| Regex.PlainMatchShape | scripts/financial_validator.py:72 | a `\b[\d,]+\.?\d*\b` match is a digit/comma run with at most one dot and digits after it |
| Regex.PlainMatchBounded | scripts/financial_validator.py:72 | a `\b[\d,]+\.?\d*\b` match starts and ends at a word boundary |
| Regex.SignedMatchShape | scripts/vision_validator.py:94 | a `-?\d+\.?\d*` match is an optional minus, digits, then an optional dot and digits |
| Decimal.ParseFloat | scripts/financial_validator.py:63 | `float` succeeds only on text with a digit, and the value is non-negative without a leading minus |
| Decimal.CommaNumberCleans | scripts/financial_validator.py:75 | removing commas from a digit/comma token leaves digits, then an optional dot and digits |
| Decimal.CommaNumberParses | scripts/financial_validator.py:75-77 | a comma-number token with its commas removed parses exactly when it holds a digit |
| Decimal.SignedNumberParses | scripts/vision_validator.py:101 | every `-?\d+\.?\d*` match parses, so none is dropped |
| Financial.CleanToken | scripts/financial_validator.py:61 | cleaning keeps exactly the characters of the token other than `,` (and `$` in the `$` pass) |
| Financial.CollectAmounts | scripts/financial_validator.py:59-82 | the loop over one pass's matches collects exactly the values that parse and pass, skipping failures without dropping the rest |
| Financial.DollarTokenParses | scripts/financial_validator.py:59-67 | a `$` token cleaned of `$` and `,` parses exactly when it holds a digit |
| Financial.PlainTokenParses | scripts/financial_validator.py:72-82 | a plain token cleaned of `,` parses exactly when it holds a digit |
| Financial.KeptValuesMembers | scripts/financial_validator.py:59-82 | a value is collected exactly when some token yields it, and every collected value passes the filter |
| Financial.KeptValuesEmpty | scripts/financial_validator.py:70 | a pass collects nothing exactly when no token yields a value, which is when the plain pass runs |
| Financial.LineAmountsMembers | scripts/financial_validator.py:56-85 | every amount is positive; if some `$` token yields a value, the amounts are exactly the `$` values; otherwise they are exactly the plain values, each at least 1000 |
| Financial.LineEntry | scripts/financial_validator.py:51-108 | the loop body for one line gives that line's entry |
| Financial.EntryAtFacts | scripts/financial_validator.py:50-108 | a blank line has no entry; an entry records its index and the stripped line, has non-empty, duplicate-free, positive amounts equal as a set to the line's amounts with `max_amount` their largest, and is a total line exactly when the line or the raw line before it contains `total`, `suma` or `subtotal` lowered |
| Financial.ExtractFinancialAmounts | scripts/financial_validator.py:42-110 | the extraction loop returns `FinancialData(text)`, the entries of the non-blank amount-bearing lines |
| Financial.CollectedInLineOrder | scripts/financial_validator.py:102-104 | the entries collected from a per-line table come from the lines their numbers name, in strictly increasing line order |
| Financial.FinancialDataFromLines | scripts/financial_validator.py:48-104 | every entry is the entry of line `line_number` of `text.split('\n')`, and line numbers strictly increase |
| Financial.FinancialDataEntriesWellFormed | scripts/financial_validator.py:85-108 | every entry has non-empty, duplicate-free amounts, with `max_amount` the largest |
| Financial.FinancialDataComplete | scripts/financial_validator.py:50-108 | every line that yields an entry is in the result |
| Financial.FinancialDataFacts | scripts/financial_validator.py:48-110 | the three facts above together: the entries are exactly those of the lines, well formed and in line order |
| Financial.FinancialDataWellFormed | scripts/financial_validator.py:48-108 | the extracted entries are in strictly increasing line order and well formed |
| Financial.MaxAmounts | scripts/financial_validator.py:121 | the list of each entry's `max_amount`, one per entry |
| Financial.FirstIndexOf | scripts/financial_validator.py:124-127 | the first index holding the value: it holds it and no earlier index does |
| Financial.FirstIndexOfIs | scripts/financial_validator.py:124-127 | an index that holds the value with none before it is the first index |
| Financial.FindLargestItem | scripts/financial_validator.py:122-127 | the search with `break` finds the first entry whose `max_amount` is the value, or nothing when no entry has it |
| Financial.CollectOtherAmounts | scripts/financial_validator.py:131-134 | the loop gathers the amounts of every entry unequal to the largest item |
| Financial.CollectOthers | scripts/financial_validator.py:155-157 | the loop keeps every entry unequal to the largest item, in order |
| Financial.OthersOfAbsent | scripts/financial_validator.py:131-157 | when the item is not in the list, dict inequality excludes nothing |
| Financial.OthersOfUnique | scripts/financial_validator.py:131-157 | when no other entry equals entry `t`, dict inequality removes exactly position `t` |
| Financial.InLineOrderUnique | scripts/financial_validator.py:133 | entries in strictly increasing line order are pairwise unequal, so the dict comparison excludes just the total row |
| Financial.IdentifyDataRowsAndTotal | scripts/financial_validator.py:112-166 | the classification method returns `Classify(financial_data)` |
| Financial.ClassifyTotal | scripts/financial_validator.py:119-152 | empty input gives two empty lists; otherwise there is exactly one total row, the first entry with the largest `max_amount`, marked `is_total` |
| Financial.ClassifyPartition | scripts/financial_validator.py:154-157 | the data rows are every other entry in the original order, so there is one fewer of them than of entries |
| Financial.ClassifyMatches | scripts/financial_validator.py:131-152 | `calculation_matches` holds exactly when the sum of all amounts of all other entries is within 10 of the largest `max_amount` |
| Financial.CollectRowMaxima | scripts/financial_validator.py:183-188 | the loop returns the largest amount of each data row that has amounts |
| Financial.RowMaximaFacts | scripts/financial_validator.py:183-188 | there is at most one value per row, none exactly when no row has amounts, each the `max` of some row's amounts |
| Financial.RowMaximaOfWellFormed | scripts/financial_validator.py:184-187 | for well-formed rows the collected values are the rows' `max_amount`s |
| Financial.CollectTotalAmounts | scripts/financial_validator.py:203-208 | the loop gathers the amounts of every total row |
| Financial.TotalAmountsMembers | scripts/financial_validator.py:203-206 | a value is gathered exactly when some total row has it |
| Financial.ReportedTotalFacts | scripts/financial_validator.py:202-208 | the reported total is 0 when no total row has amounts; otherwise it is some total row's amount and bounds all of them |
| Financial.ReportedTotalOfOne | scripts/financial_validator.py:202-208 | one well-formed total row reports its `max_amount` |
| Financial.VerdictMatchesValidity | scripts/financial_validator.py:212-224 | the status is `✅ CÁLCULO CORRECTO` for a zero difference, the rounding status up to 10 and the mismatch status beyond; so it starts with ✅ exactly when the difference is at most 10 and contains `❌ ERROR` exactly when it exceeds 10 |
| Financial.CorrectStatusesUnmarked | scripts/financial_validator.py:216-220 | neither correct status contains `❌ ERROR` |
| Financial.ValidateFinancialCalculations | scripts/financial_validator.py:168-243 | the validation method returns `Validate(data_rows, total_rows)` |
| Financial.ValidateFacts | scripts/financial_validator.py:168-243 | with no data amounts the result is invalid, with zero sums and status `❌ ERROR`; otherwise `calculated_sum` is the sum of the row maxima, `reported_total` the largest total-row amount, `difference` their absolute difference, and `valid` holds exactly when it is at most 10; the status is the exact one for a zero difference, the rounding one up to 10 and the mismatch one beyond; the details count the rows |
| Financial.StatusReflectsValidity | scripts/financial_validator.py:190-224 | a validation is valid exactly when its status does not contain `❌ ERROR` |
| Financial.ValidateClassified | scripts/financial_validator.py:119-213 | for two or more extracted entries, validating the classification compares the sum of the other entries' maxima with the total row's `max_amount`, and is valid exactly when they are within 10 |
| Financial.ReportOutcome | scripts/financial_validator.py:256-290 | empty text gives the "no text" error; text without amounts gives the "no amounts" error; a single amount line becomes the total row with no data rows and is reported invalid with `❌ ERROR` |
| Financial.ReportReconciles | scripts/financial_validator.py:256-290 | with two or more amount lines the report's total is the largest amount in the text, its sum is that of every other line's largest amount, and it is valid exactly when they are within 10 |
| Vision.CleanExtractedText | scripts/vision_validator.py:58-81 | the cleaning loop returns `CleanedLines(text)` |
| Vision.CleanLineFacts | scripts/vision_validator.py:77 | a cleaned line has no whitespace at either end and single spaces inside, keeps the non-whitespace text, and is empty exactly when the line is blank |
| Vision.CleanLineRun | scripts/vision_validator.py:77 | cleaning a line turns each whitespace run between two words into one blank and cleans each side on its own |
| Vision.CleanedLinesFacts | scripts/vision_validator.py:68-81 | empty text gives no lines; each output line is the cleaned form of a line of the text, longer than one character, normalised and with its text kept, in source order; every line whose cleaned form is longer than one character is kept |
| Vision.ExtractNumbersFromText | scripts/vision_validator.py:83-106 | the tokenizing loop returns `ExtractNumbers(text)` |
| Vision.ExtractNumbersFacts | scripts/vision_validator.py:93-106 | there is one number per leftmost non-overlapping match of `-?\d+\.?\d*`, each the match's value in text order, and a negative number comes from a match starting with `-` |
| Vision.ScanForward | scripts/vision_validator.py:125-144 | the forward loop with its `headers_found` flag and `break` computes `ForwardScan` from an empty table |
| Vision.FirstHeading | scripts/vision_validator.py:131-134 | the first header-like line at or after `i`, or none |
| Vision.FirstTotalHeading | scripts/vision_validator.py:135-137 | the first header-like line at or after `i` that mentions a total, or none |
| Vision.RowsSplit | scripts/vision_validator.py:138-144 | the rows of a range are the rows of its two halves |
| Vision.ScanBeforeHeader | scripts/vision_validator.py:127-144 | before a header is found, the scan collects rows up to the first header-like line and takes it as the header, or reaches the end |
| Vision.ScanAfterHeader | scripts/vision_validator.py:127-144 | after the header, the scan collects rows up to the first header-like line mentioning a total, records it as total row and stops, or collects to the end |
| Vision.ForwardScanIsReference | scripts/vision_validator.py:126-144 | the state machine equals the reference split at the first header and the first total line after it |
| Vision.RowsOrigin | scripts/vision_validator.py:138-144 | each collected row comes from a line with two or more numbers and carries them, in increasing line order |
| Vision.RowsComplete | scripts/vision_validator.py:138-144 | every line of the range with two or more numbers is collected |
| Vision.ReferenceShape | scripts/vision_validator.py:126-144 | the reference table has at most one header, the first header-like line, and its rows come from lines with figures, in order |
| Vision.ScanBackward | scripts/vision_validator.py:146-151 | the reverse loop returns `LastTotalLine(lines)` |
| Vision.RejectedSuffix | scripts/vision_validator.py:147-151 | lines the reverse scan rejects do not change its answer |
| Vision.LastAcceptedFacts | scripts/vision_validator.py:147-151 | the reverse scan finds the last accepted line and nothing after it is accepted, or finds nothing exactly when no line is accepted |
| Vision.LastTotalLineFacts | scripts/vision_validator.py:147-151 | the total row found is the last line mentioning `total`/`suma` or all digits once stripped; there is none exactly when no line qualifies |
| Vision.ReferenceTotalAccepted | scripts/vision_validator.py:135-151 | whenever the forward scan finds a total line, the reverse scan finds one too |
| Vision.DetectTableStructure | scripts/vision_validator.py:108-153 | the detection method returns `DetectTable(lines)` |
| Vision.DetectedTotalIsLast | scripts/vision_validator.py:135-151 | the detected total row is always the reverse scan's answer |
| Vision.DetectedHeaders | scripts/vision_validator.py:126-134 | there is at most one header, none exactly when no line has at most one number and a letter, otherwise the first such line |
| Vision.DetectedRows | scripts/vision_validator.py:138-144 | every data row is a line with at least two numbers carrying those numbers, and rows keep input order |
| Vision.CollectNumbers | scripts/vision_validator.py:176-179 | the `extend` loop returns all numbers of all data rows |
| Vision.AllNumbersMembers | scripts/vision_validator.py:176-179 | a number is gathered exactly when some data row has it |
| Vision.AllNumbersEmpty | scripts/vision_validator.py:181-183 | nothing is gathered exactly when no data row has numbers |
| Vision.StatedTotalFacts | scripts/vision_validator.py:189-194 | a stated total exists exactly when there is a total row with numbers, and it is the largest of them |
| Vision.Without | scripts/vision_validator.py:202 | `others` holds exactly the numbers different from the potential total |
| Vision.ResolveTotal | scripts/vision_validator.py:185-205 | the method computes the fallback resolution of sum and total from the stated total |
| Vision.ValidateCalculations | scripts/vision_validator.py:155-230 | the validation method returns `ValidateTable(table_data)` |
| Vision.ValidateTableEarly | scripts/vision_validator.py:172-183 | no data rows, or rows without numbers, give `valid` false with exactly the matching single error |
| Vision.ValidateTableStated | scripts/vision_validator.py:189-222 | with a stated total, the sum of all numbers is compared with it, all numbers are used, there is no error, and `valid` holds exactly when they are within 0.01 |
| Vision.ValidateTableFallback | scripts/vision_validator.py:196-228 | without a stated total, a total is resolved exactly when other numbers exist and sum to within 0.01 of the largest; then the result is valid with that largest as total and their sum as the sum; otherwise one error and status `⚠️ NO SE PUDO VALIDAR` |
| Vision.ValidateTableOutcome | scripts/vision_validator.py:208-228 | at most one error, none exactly when a total is resolved; a resolved result is valid exactly when its difference is below 0.01; a resolved result's summary is `✅ CÁLCULO CORRECTO` when valid and `❌ ERROR EN CÁLCULO` otherwise, with both sums as its message; unresolved results are invalid |
| Batch.NameStart | scripts/batch_validator.py:53 | the name starts after the last `\` or `/` before the end, or at 0 |
| Batch.BaseNameFacts | scripts/batch_validator.py:53 | `os.path.basename`, as on Windows, is a suffix of the path with no `\` or `/`; what it leaves off ends in a separator or is a drive `X:` of a path without separators; a separator-free path loses exactly a leading `X:`, and with neither it is its own base name |
| Batch.ErrorResultSummary | scripts/batch_validator.py:84-93 | an error result gives status `❌ ERROR` with the error as message, `valid` false and zero sums |
| Batch.ReportResultSummary | scripts/batch_validator.py:95-107 | a report copies each present key of its validation and summary (status, message, the three sums, `valid`, `data_amounts`) and gives each absent one its default: `⚠️ DESCONOCIDO`, `No disponible`, 0, False or []; without a validation every key takes its default |
| Batch.ReportSummary | scripts/batch_validator.py:58-107 | summarising the engine's report copies its validation; the summary is valid exactly when its status has no `❌ ERROR` |
| Batch.EngineIsEngineLike | scripts/batch_validator.py:58 | a per-image stub that runs the financial engine on any OCR text, or raises, returns only reports whose validity matches their status |
| Batch.BatchValidator.constructor | scripts/batch_validator.py:14-16 | a new batch validator has no results |
| Batch.BatchValidator.ProcessAllImages | scripts/batch_validator.py:39-77 | appends exactly one summary per image in order, even when processing raises, and keeps earlier results unchanged; it preserves the validity/status agreement |
| Batch.SummariesFacts | scripts/batch_validator.py:52-77 | there is one summary per image, in order, each named by the image's base name |
| Batch.SummariesConsistent | scripts/batch_validator.py:52-77 | with the engine stubbed, every summary is valid exactly when its status has no `❌ ERROR` |
| Batch.ConsistentAppend | scripts/batch_validator.py:62-76 | appending consistent summaries to consistent results keeps them consistent |
| Batch.ErrorMarkerStatuses | scripts/batch_validator.py:118-119 | `❌ ERROR` and the mismatch status count as errors; the two correct statuses do not |
| Batch.CountsAddUp | scripts/batch_validator.py:116-119 | valid + invalid + error counts equal the number of results plus the valid results with an error status |
| Batch.NoValidErrors | scripts/batch_validator.py:116-119 | that overlap is zero exactly when no valid result has an error status |
| Batch.CountsPartition | scripts/batch_validator.py:116-119 | when no valid result has an error status, the three counts add up to the number of results |
| Batch.ValidCountBound | scripts/batch_validator.py:117 | the valid count is at most the number of results |
| Batch.SuccessRateBounds | scripts/batch_validator.py:126 | the success rate lies between 0 and 100 |
| Batch.FinancialErrorsFacts | scripts/batch_validator.py:150 | the financial errors are exactly the results that are neither valid nor error-status, and there are as many as the invalid count |
| Batch.TotalDiscrepancyFacts | scripts/batch_validator.py:154 | the total discrepancy adds `difference` only for results that are neither valid nor error-status, and is non-negative when the differences are |
| Batch.DifferencesNonNegative | scripts/batch_validator.py:154 | the differences of results drawn from results with non-negative differences are non-negative |
| Batch.ErrorPercentageFacts | scripts/batch_validator.py:158 | the percentage is 0 when `reported_total` is at most 0, otherwise `difference / reported_total * 100`, and non-negative |
| Batch.ConsistentHasNoFinancialErrors | scripts/batch_validator.py:150-155 | consistent results have no financial errors, zero invalid count and zero discrepancy, and valid + error counts cover them all |
| Batch.BatchStatistics | scripts/batch_validator.py:116-158 | with the engine stubbed, every batch has zero invalid reports and zero total discrepancy, and valid + error counts equal the number of images |

## Left out

- The OCR call (`extract_text_from_image` in both validators) and the Vision client construction are foreign library calls. The OCR text is an input of the model. In the batch loop, the whole per-image call is a function parameter returning either a report or a raised message.
- File I/O and console output are left out. This covers `save_results`, `save_results_to_file`, `save_consolidated_report`, `print_results_summary`, every `print`, `main` and `find_all_images` with its `glob`/`os.path.exists`. The model keeps what is printed only as data: statuses and messages.
- `process_report_image` of the table validator is left out. It only chains the modelled stages (`CleanedLines`, `DetectTable`, `ValidateTable`), stamps a `numpy` timestamp and saves to a file.
- Timestamps (`numpy.datetime64`, `datetime.now`) are left out.
- IEEE-754 floating point is not modelled. `float(...)` is exact decimal parsing into `real`, so sums carry no rounding error.
- The `:,.2f` money and percentage formatting inside messages is left out. Messages with numbers are a `Message`/`TableMessage` datatype that carries the numbers.
- Unicode character classes are only partly modelled, because Unicode tables are outside the model. In module `Text`, `\s` and `strip` use Python's whitespace set. `\d` uses ASCII digits, and
  `str.isdigit` accepts those and the Latin-1 superscripts `¹`, `²` and `³`. `\w`, `str.isalpha` and `str.lower` use Latin-1 letters.
- The table validator's `summary` dict in `table_data` and its `calculations` list are left out, because the code never fills them.
- Python exceptions inside the engine other than the `ValueError` of `float` are not raised by the modelled code. Any exception in the batch loop is one `Raised` outcome of the stubbed processor.
- Util.Distinct: keeps values in order of first occurrence. Python's `list(set(...))` order is the set's iteration order, which the language does not guarantee. Downstream only `max`, `sum` and membership are used, and none of them depend on order.
- Batch.ErrorSummary: fills `data_amounts` with `[]`, because the raised-exception and error summaries of the source have no such key. Nothing reads it.
- Batch.BaseName: follows Windows path rules (`ntpath`), because `scripts/config.py:12-13` configures a `C:\…` image directory. It leaves out UNC paths (`\\server\share\…`), whose share prefix `ntpath` treats as a drive. On a path that starts with a separator and a colon (`/:`) it follows Python 3.12, while earlier versions read those two characters as a drive.
- `generate_consolidated_report` is modelled only through its statistics: the counts, success rate, financial errors, total discrepancy and error percentage. Its per-report printing is left out.
