/** The older table validator: cleaning OCR text into lines, reading the
    signed numbers of a line, classifying lines into header, data rows and
    total row, and checking the data numbers against the total. */
module Vision {
  import opened Util
  import opened Text
  import opened Regex
  import opened Decimal

  // ---------------------------------------------------------------------
  // clean_extracted_text
  // ---------------------------------------------------------------------

  /** A cleaned line: stripped, then every whitespace run made one blank. */
  function CleanLine(line: string): string
  {
    CollapseSpaces(Strip(line))
  }

  /** The cleaned line `k`, when it is longer than one character. */
  function CleanedAt(lines: seq<string>, k: nat): Option<string>
    requires k < |lines|
  {
    var cleaned := CleanLine(lines[k]);
    if |cleaned| > 1 then Some(cleaned) else None
  }

  /** The cleaning outcome of every line, in order. A proof helper: its
      ensures expose the comprehension to `CleanedLinesFacts`. */
  function CleanTable(lines: seq<string>): (t: seq<Option<string>>)
    ensures |t| == |lines|
    ensures forall k :: 0 <= k < |lines| ==> t[k] == CleanedAt(lines, k)
  {
    seq(|lines|, k requires 0 <= k < |lines| => CleanedAt(lines, k))
  }

  /** The result of `clean_extracted_text(text)`. */
  function CleanedLines(text: string): seq<string>
  {
    if text == [] then [] else Somes(CleanTable(Split(text)))
  }

  method CleanExtractedText(text: string) returns (cleanedLines: seq<string>)
    ensures cleanedLines == CleanedLines(text)
  {
    if text == [] {
      return [];
    }
    var lines := Split(text);
    ghost var table := CleanTable(lines);
    cleanedLines := [];
    var i := 0;
    while i < |lines|
      invariant i <= |lines|
      invariant cleanedLines == Somes(table[..i])
    {
      SomesStep(table, i);
      var cleanedLine := CollapseSpaces(Strip(lines[i]));
      if |cleanedLine| > 0 && |cleanedLine| > 1 {
        cleanedLines := cleanedLines + [cleanedLine];
      }
      i := i + 1;
    }
    assert table[..i] == table;
  }

  // ---------------------------------------------------------------------
  // extract_numbers_from_text
  // ---------------------------------------------------------------------

  /** The `float` outcome of every match, in order. A proof helper: its
      ensures expose the comprehension to `ExtractNumbersFacts`. */
  function ParsedTokens(matches: seq<string>): (vs: seq<Option<real>>)
    ensures |vs| == |matches|
    ensures forall k :: 0 <= k < |matches| ==> vs[k] == ParseFloat(matches[k])
  {
    seq(|matches|, k requires 0 <= k < |matches| => ParseFloat(matches[k]))
  }

  /** The result of `extract_numbers_from_text(text)`: the matches of
      `-?\d+\.?\d*` that `float()` accepts, converted, in order. */
  function ExtractNumbers(text: string): seq<real>
  {
    Somes(ParsedTokens(Matches(Signed, text)))
  }

  method ExtractNumbersFromText(text: string) returns (numbers: seq<real>)
    ensures numbers == ExtractNumbers(text)
  {
    var matches := Matches(Signed, text);
    ghost var parsed := ParsedTokens(matches);
    numbers := [];
    var j := 0;
    while j < |matches|
      invariant j <= |matches|
      invariant numbers == Somes(parsed[..j])
    {
      SomesStep(parsed, j);
      var num := ParseFloat(matches[j]);
      if num.Some? {
        numbers := numbers + [num.value];
      }
      j := j + 1;
    }
    assert parsed[..j] == parsed;
  }

  // ---------------------------------------------------------------------
  // detect_table_structure
  // ---------------------------------------------------------------------

  datatype DataRow = DataRow(text: string, numbers: seq<real>)

  /** The `table_data` dict; its `summary` entry is always empty and is not kept. */
  datatype Table = Table(headers: seq<string>, dataRows: seq<DataRow>, totalRow: Option<string>)

  /** Some character of the line is a letter. */
  predicate HasLetter(line: string)
  {
    exists k :: 0 <= k < |line| && IsAlpha(line[k])
  }

  /** The lowered line contains total or suma. */
  predicate MentionsTotal(line: string)
  {
    Contains(Lower(line), "total") || Contains(Lower(line), "suma")
  }

  /** A line with at most one number and some letter: a header the first
      time, a possible total row afterwards. */
  predicate HeaderLike(line: string)
  {
    |ExtractNumbers(line)| <= 1 && HasLetter(line)
  }

  /** What the reverse scan accepts as the total row: a line that mentions
      a total, or that is all digits once stripped. */
  predicate TotalCandidate(line: string)
  {
    MentionsTotal(line) || IsDigitString(Strip(line))
  }

  /** How the forward scan treats a line: a header-like line (at most one
      number and some letter), noting whether it mentions a total; a line
      with two or more numbers, with those numbers; or any other line. */
  datatype LineKind = Heading(mentionsTotal: bool) | Figures(numbers: seq<real>) | Other

  function Kind(line: string): LineKind
  {
    var numbers := ExtractNumbers(line);
    if |numbers| <= 1 && HasLetter(line) then Heading(MentionsTotal(line))
    else if |numbers| >= 2 then Figures(numbers)
    else Other
  }

  /** The forward scan from line `i` on, with the table built so far, for a
      given way `kind` of classifying lines (the script's is `Kind`). */
  function ForwardScan(lines: seq<string>, kind: string -> LineKind, i: nat, t: Table): Table
    requires i <= |lines|
    decreases |lines| - i
  {
    if i == |lines| then t
    else
      var line := lines[i];
      match kind(line)
      case Heading(total) =>
        if t.headers == [] then ForwardScan(lines, kind, i + 1, t.(headers := t.headers + [line]))
        else if total then t.(totalRow := Some(line))
        else ForwardScan(lines, kind, i + 1, t)
      case Figures(numbers) =>
        ForwardScan(lines, kind, i + 1, t.(dataRows := t.dataRows + [DataRow(line, numbers)]))
      case Other => ForwardScan(lines, kind, i + 1, t)
  }

  /** The first line, scanning from the end, that the reverse scan accepts. */
  function LastTotalLine(lines: seq<string>): Option<string>
  {
    LastAccepted(lines, TotalCandidate, |lines|)
  }

  /** The last of the first `j` lines that `accept` holds for, if any. */
  function LastAccepted(lines: seq<string>, accept: string -> bool, j: nat): Option<string>
    requires j <= |lines|
  {
    if j == 0 then None
    else if accept(lines[j - 1]) then Some(lines[j - 1])
    else LastAccepted(lines, accept, j - 1)
  }

  /** The first loop of `detect_table_structure`: headers, data rows and a
      total row that stops the scan. */
  method ScanForward(lines: seq<string>) returns (tableData: Table)
    ensures tableData == ForwardScan(lines, Kind, 0, Table([], [], None))
  {
    tableData := Table([], [], None);
    ghost var forward := ForwardScan(lines, Kind, 0, tableData);
    var headersFound := false;
    var i := 0;
    while i < |lines|
      invariant i <= |lines|
      invariant headersFound <==> tableData.headers != []
      invariant ForwardScan(lines, Kind, i, tableData) == forward
    {
      var line := lines[i];
      var numbers := ExtractNumbersFromText(line);
      if |numbers| <= 1 && HasLetter(line) {
        if !headersFound {
          tableData := tableData.(headers := tableData.headers + [line]);
          headersFound := true;
        } else if MentionsTotal(line) {
          tableData := tableData.(totalRow := Some(line));
          break;
        }
      } else {
        if |numbers| >= 2 {
          tableData := tableData.(dataRows := tableData.dataRows + [DataRow(line, numbers)]);
        }
      }
      i := i + 1;
    }
  }

  /** The second loop of `detect_table_structure`: the last line that the
      reverse scan accepts, if any. */
  method ScanBackward(lines: seq<string>) returns (totalRow: Option<string>)
    ensures totalRow == LastTotalLine(lines)
  {
    totalRow := None;
    var j: nat := |lines|;
    while j > 0
      invariant j <= |lines|
      invariant forall k :: j <= k < |lines| ==> !TotalCandidate(lines[k])
    {
      var line := lines[j - 1];
      if TotalCandidate(line) {
        totalRow := Some(line);
        break;
      }
      j := j - 1;
    }
    RejectedSuffix(lines, TotalCandidate, j, |lines|);
  }

  /** Rejected lines at the end do not change where a reverse scan stops. */
  lemma {:induction false} RejectedSuffix(lines: seq<string>, accept: string -> bool, j: nat, n: nat)
    requires j <= n <= |lines|
    requires forall k :: j <= k < n ==> !accept(lines[k])
    ensures LastAccepted(lines, accept, n) == LastAccepted(lines, accept, j)
    decreases n
  {
    if j < n {
      RejectedSuffix(lines, accept, j, n - 1);
    }
  }

  /** The result of `detect_table_structure(lines)`: the forward scan, with
      its total row replaced by the reverse scan's when that finds one. */
  function DetectTable(lines: seq<string>): Table
  {
    var forward := ForwardScan(lines, Kind, 0, Table([], [], None));
    var last := LastTotalLine(lines);
    if last.Some? then forward.(totalRow := last) else forward
  }

  /** `detect_table_structure`: the two loops in turn. */
  method DetectTableStructure(lines: seq<string>) returns (tableData: Table)
    ensures tableData == DetectTable(lines)
  {
    tableData := ScanForward(lines);
    var totalRow := ScanBackward(lines);
    if totalRow.Some? {
      tableData := tableData.(totalRow := totalRow);
    }
  }

  // ---------------------------------------------------------------------
  // validate_calculations
  // ---------------------------------------------------------------------

  const NoRowsError: string := "No se encontraron filas de datos para validar"
  const NoNumbersError: string := "No se encontraron números para calcular"
  const NoTotalError: string := "No se pudo identificar el total reportado"
  const CorrectStatus: string := "✅ CÁLCULO CORRECTO"
  const WrongStatus: string := "❌ ERROR EN CÁLCULO"
  const UnresolvedStatus: string := "⚠️ NO SE PUDO VALIDAR"

  /** Tolerance for rounding errors, compared strictly. */
  const RoundingTolerance: real := 0.01

  /** Two amounts that differ by less than the rounding tolerance. */
  predicate WithinRounding(calculatedSum: real, reportedTotal: real)
  {
    Abs(calculatedSum - reportedTotal) < RoundingTolerance
  }

  /** The two formatted messages, with the values they print. */
  datatype TableMessage =
    | SumsMessage(calculatedSum: real, reportedTotal: real)
    | NumbersMessage(numbers: seq<real>, sum: real)

  datatype TableSummary = TableSummary(status: string, message: TableMessage)

  /** The entries `validate_calculations` adds once a total is known. */
  datatype Resolved = Resolved(calculatedSum: real, reportedTotal: real, difference: real, numbersUsed: seq<real>)

  /** The `results` dict; its `calculations` entry is always empty and is not
      kept, and an empty `summary` is `None`. */
  datatype TableValidation = TableValidation(
    valid: bool,
    errors: seq<string>,
    resolved: Option<Resolved>,
    summary: Option<TableSummary>)

  /** `all_numbers`: the numbers of every data row, concatenated. */
  function AllNumbers(rows: seq<DataRow>): seq<real>
  {
    if rows == [] then [] else AllNumbers(rows[..|rows| - 1]) + rows[|rows| - 1].numbers
  }

  /** The numbers of `xs` other than `m`, in order. */
  function Without(xs: seq<real>, m: real): (r: seq<real>)
    ensures forall x :: x in r <==> x in xs && x != m
  {
    if xs == [] then []
    else
      var init := Without(xs[..|xs| - 1], m);
      assert forall x :: x in xs <==> x in xs[..|xs| - 1] || x == xs[|xs| - 1] by {
        assert xs == xs[..|xs| - 1] + [xs[|xs| - 1]];
      }
      if xs[|xs| - 1] != m then init + [xs[|xs| - 1]] else init
  }

  /** The total stated on a non-empty total row: its largest number, if it has any. */
  function StatedTotal(totalRow: Option<string>): Option<real>
  {
    if totalRow.Some? && totalRow.value != [] then
      var totalNumbers := ExtractNumbers(totalRow.value);
      if totalNumbers != [] then Some(Max(totalNumbers)) else None
    else None
  }

  /** The fallback: the largest number counts as the total when the numbers
      different from it exist and add up to it within the tolerance. */
  predicate FallbackApplies(allNumbers: seq<real>)
    requires allNumbers != []
  {
    var others := Without(allNumbers, Max(allNumbers));
    others != [] && Abs(Sum(others) - Max(allNumbers)) < RoundingTolerance
  }

  /** The sum to check and the total to check it against: the stated total
      with the sum of every number, else the fallback total with the sum of
      the other numbers, else no total. */
  function Resolution(allNumbers: seq<real>, stated: Option<real>): (real, Option<real>)
    requires allNumbers != []
  {
    if stated.Some? then (Sum(allNumbers), stated)
    else if FallbackApplies(allNumbers) then (Sum(Without(allNumbers, Max(allNumbers))), Some(Max(allNumbers)))
    else (Sum(allNumbers), None)
  }

  /** The result of `validate_calculations(table)`. */
  function ValidateTable(table: Table): TableValidation
  {
    if table.dataRows == [] then TableValidation(false, [NoRowsError], None, None)
    else
      var allNumbers := AllNumbers(table.dataRows);
      if allNumbers == [] then TableValidation(false, [NoNumbersError], None, None)
      else
        var resolution := Resolution(allNumbers, StatedTotal(table.totalRow));
        Outcome(allNumbers, resolution.0, resolution.1)
  }

  /** The result once the sum and the total to compare are settled. */
  function Outcome(allNumbers: seq<real>, calculatedSum: real, reportedTotal: Option<real>): TableValidation
  {
    if reportedTotal.Some? then
      var difference := Abs(calculatedSum - reportedTotal.value);
      var isValid := difference < RoundingTolerance;
      TableValidation(isValid, [], Some(Resolved(calculatedSum, reportedTotal.value, difference, allNumbers)),
        Some(TableSummary(if isValid then CorrectStatus else WrongStatus, SumsMessage(calculatedSum, reportedTotal.value))))
    else
      TableValidation(false, [NoTotalError], None,
        Some(TableSummary(UnresolvedStatus, NumbersMessage(allNumbers, calculatedSum))))
  }

  /** `validate_calculations`: the two early returns, then the comparison
      of the settled sum and total. */
  method ValidateCalculations(tableData: Table) returns (results: TableValidation)
    ensures results == ValidateTable(tableData)
  {
    results := TableValidation(false, [], None, None);
    if tableData.dataRows == [] {
      results := results.(errors := results.errors + [NoRowsError]);
      return;
    }
    var allNumbers := CollectNumbers(tableData.dataRows);
    if allNumbers == [] {
      results := results.(errors := results.errors + [NoNumbersError]);
      return;
    }
    var calculatedSum, reportedTotal := ResolveTotal(allNumbers, tableData.totalRow);
    if reportedTotal.Some? {
      var difference := Abs(calculatedSum - reportedTotal.value);
      var isValid := difference < RoundingTolerance;
      results := results.(valid := isValid,
                          resolved := Some(Resolved(calculatedSum, reportedTotal.value, difference, allNumbers)),
                          summary := Some(TableSummary(if isValid then CorrectStatus else WrongStatus,
                                                       SumsMessage(calculatedSum, reportedTotal.value))));
    } else {
      results := results.(errors := results.errors + [NoTotalError],
                          summary := Some(TableSummary(UnresolvedStatus, NumbersMessage(allNumbers, calculatedSum))));
    }
  }

  /** The `extend` loop of `validate_calculations`. */
  method CollectNumbers(rows: seq<DataRow>) returns (allNumbers: seq<real>)
    ensures allNumbers == AllNumbers(rows)
  {
    allNumbers := [];
    var i := 0;
    while i < |rows|
      invariant i <= |rows|
      invariant allNumbers == AllNumbers(rows[..i])
    {
      assert rows[..i + 1][..i] == rows[..i];
      allNumbers := allNumbers + rows[i].numbers;
      i := i + 1;
    }
    assert rows[..i] == rows;
  }

  /** The search for the reported total in `validate_calculations`: the
      total row first, then the largest-number fallback. */
  method ResolveTotal(allNumbers: seq<real>, totalRow: Option<string>) returns (calculatedSum: real, reportedTotal: Option<real>)
    requires allNumbers != []
    ensures (calculatedSum, reportedTotal) == Resolution(allNumbers, StatedTotal(totalRow))
  {
    calculatedSum := Sum(allNumbers);
    reportedTotal := None;
    if totalRow.Some? && totalRow.value != [] {
      var totalNumbers := ExtractNumbersFromText(totalRow.value);
      if totalNumbers != [] {
        reportedTotal := Some(Max(totalNumbers));
      }
    }
    if reportedTotal.None? {
      var potentialTotal := Max(allNumbers);
      var others := Without(allNumbers, potentialTotal);
      if others != [] && Abs(Sum(others) - potentialTotal) < RoundingTolerance {
        reportedTotal := Some(potentialTotal);
        calculatedSum := Sum(others);
      }
    }
  }

  // ---------------------------------------------------------------------
  // Properties of the cleaning
  // ---------------------------------------------------------------------

  /** A normalised line: no whitespace at either end, and inside only
      single blanks. */
  predicate Normalised(l: string)
  {
    && (l != [] ==> !IsSpace(l[0]) && !IsSpace(l[|l| - 1]))
    && (forall k :: 0 <= k < |l| && IsSpace(l[k]) ==> l[k] == ' ')
    && (forall k :: 0 <= k < |l| - 1 && l[k] == ' ' ==> l[k + 1] != ' ')
  }

  /** Cleaning a line normalises its whitespace and keeps every other
      character in order; it empties exactly the blank lines. */
  lemma CleanLineFacts(line: string)
    ensures Normalised(CleanLine(line))
    ensures NonSpace(CleanLine(line)) == NonSpace(line)
    ensures CleanLine(line) == [] <==> AllSpace(line)
  {
    var t := Strip(line);
    StripFacts(line);
    CollapseSpacesFacts(t);
    StripKeepsText(line);
    CollapseKeepsText(t);
  }

  /** Cleaning never deletes a whitespace run between two words of a line:
      the run becomes exactly one blank, and each side is cleaned on its own. */
  lemma CleanLineRun(u: string, w: string, v: string)
    requires u != [] && !IsSpace(u[|u| - 1])
    requires w != [] && AllSpace(w)
    requires v != [] && !IsSpace(v[0])
    ensures CleanLine(u + w + v) == CleanLine(u) + " " + CleanLine(v)
  {
    StripAroundRun(u, w, v);
    CollapseRun(Strip(u), w, Strip(v));
  }

  /** What `clean_extracted_text` returns: nothing for empty text; otherwise
      the cleaned form of the source lines whose cleaned form is longer than
      one character, in source order, each normalised and keeping the
      non-blank characters of its source line. */
  lemma CleanedLinesFacts(text: string) returns (origin: seq<nat>)
    ensures text == [] ==> CleanedLines(text) == []
    ensures |origin| == |CleanedLines(text)|
    ensures forall i :: 0 <= i < |origin| ==>
      var l := CleanedLines(text)[i];
      && origin[i] < |Split(text)| && l == CleanLine(Split(text)[origin[i]])
      && |l| > 1 && Normalised(l) && NonSpace(l) == NonSpace(Split(text)[origin[i]])
    ensures forall i, j :: 0 <= i < j < |origin| ==> origin[i] < origin[j]
    ensures text != [] ==> forall k :: 0 <= k < |Split(text)| && |CleanLine(Split(text)[k])| > 1 ==>
      CleanLine(Split(text)[k]) in CleanedLines(text)
  {
    if text == [] {
      origin := [];
    } else {
      var lines := Split(text);
      var table := CleanTable(lines);
      origin := SomesIndices(table);
      forall i | 0 <= i < |origin| ensures
        var l := CleanedLines(text)[i];
        && origin[i] < |lines| && l == CleanLine(lines[origin[i]])
        && |l| > 1 && Normalised(l) && NonSpace(l) == NonSpace(lines[origin[i]])
      {
        CleanLineFacts(lines[origin[i]]);
      }
      forall k | 0 <= k < |lines| && |CleanLine(lines[k])| > 1 ensures CleanLine(lines[k]) in Somes(table) {
        SomesMembers(table, CleanLine(lines[k]));
        assert table[k] == Some(CleanLine(lines[k]));
      }
    }
  }

  // ---------------------------------------------------------------------
  // Properties of the number extraction
  // ---------------------------------------------------------------------

  /** Every match of `-?\d+\.?\d*` parses, so `extract_numbers_from_text`
      gives one number per match, in order, each the value of its match;
      a number is negative only when its match starts with a minus sign. */
  lemma ExtractNumbersFacts(text: string)
    ensures |ExtractNumbers(text)| == |Matches(Signed, text)|
    ensures forall k :: 0 <= k < |Matches(Signed, text)| ==>
      ParseFloat(Matches(Signed, text)[k]) == Some(ExtractNumbers(text)[k])
    ensures forall k :: 0 <= k < |Matches(Signed, text)| && ExtractNumbers(text)[k] < 0.0 ==>
      Matches(Signed, text)[k][0] == '-'
  {
    var ms := Matches(Signed, text);
    var ps := ParsedTokens(ms);
    forall k | 0 <= k < |ps| ensures ps[k].Some? {
      SignedNumberParses(ms[k]);
    }
    SomesAllSome(ps);
  }

  // ---------------------------------------------------------------------
  // Properties of the table detection
  // ---------------------------------------------------------------------

  /** The first header-like line from `i` on, if any. */
  function FirstHeading(lines: seq<string>, kind: string -> LineKind, i: nat): (h: Option<nat>)
    requires i <= |lines|
    ensures h.Some? ==> i <= h.value < |lines| && kind(lines[h.value]).Heading?
    ensures forall k :: i <= k < |lines| && (h.None? || k < h.value) ==> !kind(lines[k]).Heading?
    decreases |lines| - i
  {
    if i == |lines| then None
    else if kind(lines[i]).Heading? then Some(i)
    else FirstHeading(lines, kind, i + 1)
  }

  /** The first header-like line from `i` on that mentions a total, if any. */
  function FirstTotalHeading(lines: seq<string>, kind: string -> LineKind, i: nat): (s: Option<nat>)
    requires i <= |lines|
    ensures s.Some? ==> i <= s.value < |lines| && kind(lines[s.value]) == Heading(true)
    ensures forall k :: i <= k < |lines| && (s.None? || k < s.value) ==> kind(lines[k]) != Heading(true)
    decreases |lines| - i
  {
    if i == |lines| then None
    else if kind(lines[i]) == Heading(true) then Some(i)
    else FirstTotalHeading(lines, kind, i + 1)
  }

  /** The data row that line `k` gives, as a list of zero or one rows. */
  function RowOf(lines: seq<string>, kind: string -> LineKind, k: nat): seq<DataRow>
    requires k < |lines|
  {
    match kind(lines[k])
    case Figures(numbers) => [DataRow(lines[k], numbers)]
    case _ => []
  }

  /** The data rows of lines `i` up to (not including) `j`, in order. */
  function RowsBetween(lines: seq<string>, kind: string -> LineKind, i: nat, j: nat): seq<DataRow>
    requires i <= j <= |lines|
    decreases j - i
  {
    if i == j then [] else RowOf(lines, kind, i) + RowsBetween(lines, kind, i + 1, j)
  }

  /** What the forward scan finds, stated directly: the first header-like
      line as the only header; as the total row, the first header-like line
      after it that mentions a total; and the data rows of every line before
      that total row (of every line, when there is none). */
  function ForwardReference(lines: seq<string>, kind: string -> LineKind): Table
  {
    match FirstHeading(lines, kind, 0)
    case None => Table([], RowsBetween(lines, kind, 0, |lines|), None)
    case Some(h) =>
      match FirstTotalHeading(lines, kind, h + 1)
      case None => Table([lines[h]], RowsBetween(lines, kind, 0, |lines|), None)
      case Some(s) => Table([lines[h]], RowsBetween(lines, kind, 0, s), Some(lines[s]))
  }

  lemma {:induction false} RowsSplit(lines: seq<string>, kind: string -> LineKind, i: nat, k: nat, j: nat)
    requires i <= k <= j <= |lines|
    ensures RowsBetween(lines, kind, i, j) == RowsBetween(lines, kind, i, k) + RowsBetween(lines, kind, k, j)
    decreases k - i
  {
    if i < k {
      RowsSplit(lines, kind, i + 1, k, j);
      var r := RowOf(lines, kind, i);
      assert r + (RowsBetween(lines, kind, i + 1, k) + RowsBetween(lines, kind, k, j))
          == (r + RowsBetween(lines, kind, i + 1, k)) + RowsBetween(lines, kind, k, j);
    }
  }

  /** Once the header is found, the scan gathers data rows up to the first
      header-like line mentioning a total, takes that line as the total row
      and stops. */
  lemma {:induction false} ScanAfterHeader(lines: seq<string>, kind: string -> LineKind, i: nat, t: Table)
    requires i <= |lines| && t.headers != []
    ensures ForwardScan(lines, kind, i, t) ==
      match FirstTotalHeading(lines, kind, i)
      case None => t.(dataRows := t.dataRows + RowsBetween(lines, kind, i, |lines|))
      case Some(s) => t.(dataRows := t.dataRows + RowsBetween(lines, kind, i, s), totalRow := Some(lines[s]))
    decreases |lines| - i
  {
    if i == |lines| {
      assert t.dataRows + [] == t.dataRows;
    } else if kind(lines[i]) == Heading(true) {
      assert t.dataRows + [] == t.dataRows;
    } else {
      var r := RowOf(lines, kind, i);
      var t' := t.(dataRows := t.dataRows + r);
      assert ForwardScan(lines, kind, i, t) == ForwardScan(lines, kind, i + 1, t') by {
        if r == [] { assert t.dataRows + r == t.dataRows; }
      }
      ScanAfterHeader(lines, kind, i + 1, t');
      var e := if FirstTotalHeading(lines, kind, i).Some? then FirstTotalHeading(lines, kind, i).value else |lines|;
      assert (t.dataRows + r) + RowsBetween(lines, kind, i + 1, e) == t.dataRows + (r + RowsBetween(lines, kind, i + 1, e));
    }
  }

  /** Before the header is found, the scan gathers data rows up to the first
      header-like line, takes it as the header and goes on after it. */
  lemma {:induction false} ScanBeforeHeader(lines: seq<string>, kind: string -> LineKind, i: nat, t: Table)
    requires i <= |lines| && t.headers == []
    ensures ForwardScan(lines, kind, i, t) ==
      match FirstHeading(lines, kind, i)
      case None => t.(dataRows := t.dataRows + RowsBetween(lines, kind, i, |lines|))
      case Some(h) => ForwardScan(lines, kind, h + 1, t.(headers := [lines[h]], dataRows := t.dataRows + RowsBetween(lines, kind, i, h)))
    decreases |lines| - i
  {
    if i == |lines| {
      assert t.dataRows + [] == t.dataRows;
    } else if kind(lines[i]).Heading? {
      assert t.dataRows + [] == t.dataRows;
      assert t.headers + [lines[i]] == [lines[i]];
    } else {
      var r := RowOf(lines, kind, i);
      var t' := t.(dataRows := t.dataRows + r);
      assert ForwardScan(lines, kind, i, t) == ForwardScan(lines, kind, i + 1, t') by {
        if r == [] { assert t.dataRows + r == t.dataRows; }
      }
      ScanBeforeHeader(lines, kind, i + 1, t');
      var e := if FirstHeading(lines, kind, i).Some? then FirstHeading(lines, kind, i).value else |lines|;
      assert (t.dataRows + r) + RowsBetween(lines, kind, i + 1, e) == t.dataRows + (r + RowsBetween(lines, kind, i + 1, e));
    }
  }

  /** The forward scan of `detect_table_structure` finds what
      `ForwardReference` describes. */
  lemma ForwardScanIsReference(lines: seq<string>, kind: string -> LineKind)
    ensures ForwardScan(lines, kind, 0, Table([], [], None)) == ForwardReference(lines, kind)
  {
    var t := Table([], [], None);
    ScanBeforeHeader(lines, kind, 0, t);
    assert [] + RowsBetween(lines, kind, 0, |lines|) == RowsBetween(lines, kind, 0, |lines|);
    if FirstHeading(lines, kind, 0).Some? {
      var h := FirstHeading(lines, kind, 0).value;
      var t1 := t.(headers := [lines[h]], dataRows := RowsBetween(lines, kind, 0, h));
      assert t.dataRows + RowsBetween(lines, kind, 0, h) == RowsBetween(lines, kind, 0, h);
      ScanAfterHeader(lines, kind, h + 1, t1);
      var e := if FirstTotalHeading(lines, kind, h + 1).Some? then FirstTotalHeading(lines, kind, h + 1).value else |lines|;
      RowsSplit(lines, kind, 0, h, e);
      assert RowsBetween(lines, kind, h, e) == RowsBetween(lines, kind, h + 1, e);
    }
  }

  /** Where the rows of `RowsBetween` come from: one line each, in order,
      from lines in the range that have figures. */
  lemma {:induction false} RowsOrigin(lines: seq<string>, kind: string -> LineKind, i: nat, j: nat) returns (origin: seq<nat>)
    requires i <= j <= |lines|
    ensures |origin| == |RowsBetween(lines, kind, i, j)|
    ensures forall n :: 0 <= n < |origin| ==> i <= origin[n] < j && FromLine(lines, kind, origin[n], RowsBetween(lines, kind, i, j)[n])
    ensures forall n, m :: 0 <= n < m < |origin| ==> origin[n] < origin[m]
    decreases j - i
  {
    if i == j {
      origin := [];
    } else {
      var rest := RowsOrigin(lines, kind, i + 1, j);
      if kind(lines[i]).Figures? {
        origin := RowsOriginCons(lines, kind, i, j, rest);
      } else {
        RowsSkip(lines, kind, i, j);
        origin := rest;
      }
    }
  }

  /** A line without figures adds no row. */
  lemma RowsSkip(lines: seq<string>, kind: string -> LineKind, i: nat, j: nat)
    requires i < j <= |lines| && !kind(lines[i]).Figures?
    ensures RowsBetween(lines, kind, i, j) == RowsBetween(lines, kind, i + 1, j)
  {
    assert RowOf(lines, kind, i) == [];
  }

  /** The origins of a range that starts with a line with figures: that
      line, then the origins of the rest of the range. */
  lemma RowsOriginCons(lines: seq<string>, kind: string -> LineKind, i: nat, j: nat, rest: seq<nat>) returns (origin: seq<nat>)
    requires i < j <= |lines| && kind(lines[i]).Figures?
    requires |rest| == |RowsBetween(lines, kind, i + 1, j)|
    requires forall n :: 0 <= n < |rest| ==> i + 1 <= rest[n] < j && FromLine(lines, kind, rest[n], RowsBetween(lines, kind, i + 1, j)[n])
    requires forall n, m :: 0 <= n < m < |rest| ==> rest[n] < rest[m]
    ensures |origin| == |RowsBetween(lines, kind, i, j)|
    ensures forall n :: 0 <= n < |origin| ==> i <= origin[n] < j && FromLine(lines, kind, origin[n], RowsBetween(lines, kind, i, j)[n])
    ensures forall n, m :: 0 <= n < m < |origin| ==> origin[n] < origin[m]
  {
    var rows := RowsBetween(lines, kind, i + 1, j);
    var all := RowsBetween(lines, kind, i, j);
    var row := DataRow(lines[i], kind(lines[i]).numbers);
    assert RowOf(lines, kind, i) == [row];
    assert all == [row] + rows;
    origin := [i] + rest;
    forall n | 0 <= n < |origin|
      ensures i <= origin[n] < j && FromLine(lines, kind, origin[n], all[n])
    {
      if n > 0 {
        assert origin[n] == rest[n - 1] && all[n] == rows[n - 1];
      }
    }
  }

  /** `row` is the data row that line `k` gives. */
  predicate FromLine(lines: seq<string>, kind: string -> LineKind, k: nat, row: DataRow)
    requires k < |lines|
  {
    kind(lines[k]).Figures? && row == DataRow(lines[k], kind(lines[k]).numbers)
  }

  /** Every line in the range that has figures gives one of the rows. */
  lemma {:induction false} RowsComplete(lines: seq<string>, kind: string -> LineKind, i: nat, j: nat, k: nat)
    requires i <= k < j <= |lines| && kind(lines[k]).Figures?
    ensures DataRow(lines[k], kind(lines[k]).numbers) in RowsBetween(lines, kind, i, j)
    decreases k - i
  {
    if i < k {
      RowsComplete(lines, kind, i + 1, j, k);
    }
  }

  /** The reverse scan's answer is the last accepted line before `j`, and
      there is none exactly when no line before `j` is accepted. */
  lemma {:induction false} LastAcceptedFacts(lines: seq<string>, accept: string -> bool, j: nat) returns (k: nat)
    requires j <= |lines|
    ensures LastAccepted(lines, accept, j).Some? ==>
      k < j && accept(lines[k]) && LastAccepted(lines, accept, j).value == lines[k] &&
      forall m :: k < m < j ==> !accept(lines[m])
    ensures LastAccepted(lines, accept, j).None? <==> forall m :: 0 <= m < j ==> !accept(lines[m])
    decreases j
  {
    if j == 0 {
      k := 0;
    } else if accept(lines[j - 1]) {
      k := j - 1;
    } else {
      k := LastAcceptedFacts(lines, accept, j - 1);
    }
  }

  /** `LastTotalLine` is the last line that mentions a total or is all
      digits once stripped, and is absent exactly when there is no such line. */
  lemma LastTotalLineFacts(lines: seq<string>)
    ensures LastTotalLine(lines).Some? ==>
      (exists k :: 0 <= k < |lines| && LastTotalLine(lines).value == lines[k] && TotalCandidate(lines[k]) &&
        forall m :: k < m < |lines| ==> !TotalCandidate(lines[m]))
    ensures LastTotalLine(lines).None? <==> forall m :: 0 <= m < |lines| ==> !TotalCandidate(lines[m])
  {
    var k := LastAcceptedFacts(lines, TotalCandidate, |lines|);
  }

  /** A total row the forward scan stops at is a line the reverse scan
      accepts as well, when `accept` takes every header-like line that
      mentions a total. */
  lemma ReferenceTotalAccepted(lines: seq<string>, kind: string -> LineKind, accept: string -> bool)
    requires forall k :: 0 <= k < |lines| && kind(lines[k]) == Heading(true) ==> accept(lines[k])
    ensures ForwardReference(lines, kind).totalRow.Some? ==> LastAccepted(lines, accept, |lines|).Some?
  {
    var k := LastAcceptedFacts(lines, accept, |lines|);
    var h := FirstHeading(lines, kind, 0);
    if h.Some? {
      var s := FirstTotalHeading(lines, kind, h.value + 1);
      if s.Some? {
        assert accept(lines[s.value]);
      }
    }
  }

  /** The reverse scan always decides the total row: a total row the
      forward scan stops at mentions a total, so the reverse scan finds a
      line too (the last such line, not necessarily the same one). */
  lemma DetectedTotalIsLast(lines: seq<string>)
    ensures DetectTable(lines).totalRow == LastTotalLine(lines)
  {
    forall k | 0 <= k < |lines| && Kind(lines[k]) == Heading(true)
      ensures TotalCandidate(lines[k])
    {
    }
    ForwardScanIsReference(lines, Kind);
    ReferenceTotalAccepted(lines, Kind, TotalCandidate);
  }

  /** The shape of what the forward scan finds: at most one header, the
      first header-like line; data rows from lines with figures, in order. */
  lemma ReferenceShape(lines: seq<string>, kind: string -> LineKind) returns (origin: seq<nat>)
    ensures |ForwardReference(lines, kind).headers| <= 1
    ensures ForwardReference(lines, kind).headers == [] <==>
      forall k :: 0 <= k < |lines| ==> !kind(lines[k]).Heading?
    ensures ForwardReference(lines, kind).headers != [] ==>
      (exists h :: 0 <= h < |lines| && ForwardReference(lines, kind).headers == [lines[h]] &&
        kind(lines[h]).Heading? && forall k :: 0 <= k < h ==> !kind(lines[k]).Heading?)
    ensures |origin| == |ForwardReference(lines, kind).dataRows|
    ensures forall n :: 0 <= n < |origin| ==>
      origin[n] < |lines| && FromLine(lines, kind, origin[n], ForwardReference(lines, kind).dataRows[n])
    ensures forall n, m :: 0 <= n < m < |origin| ==> origin[n] < origin[m]
  {
    var h := FirstHeading(lines, kind, 0);
    var e := |lines|;
    if h.Some? {
      var s := FirstTotalHeading(lines, kind, h.value + 1);
      if s.Some? { e := s.value; }
    }
    origin := RowsOrigin(lines, kind, 0, e);
  }

  /** The headers `detect_table_structure` finds: none when no line looks
      like a header, otherwise just the first header-like line. */
  lemma DetectedHeaders(lines: seq<string>)
    ensures |DetectTable(lines).headers| <= 1
    ensures DetectTable(lines).headers == [] <==> forall k :: 0 <= k < |lines| ==> !HeaderLike(lines[k])
    ensures DetectTable(lines).headers != [] ==>
      (exists h :: 0 <= h < |lines| && DetectTable(lines).headers == [lines[h]] &&
        HeaderLike(lines[h]) && forall k :: 0 <= k < h ==> !HeaderLike(lines[k]))
  {
    ForwardScanIsReference(lines, Kind);
    var origin := ReferenceShape(lines, Kind);
    assert DetectTable(lines).headers == ForwardReference(lines, Kind).headers;
    forall k | 0 <= k < |lines|
      ensures Kind(lines[k]).Heading? <==> HeaderLike(lines[k])
    {
    }
  }

  /** The data rows `detect_table_structure` finds come from lines with two
      or more numbers, in line order, each carrying its line's numbers. */
  lemma DetectedRows(lines: seq<string>) returns (origin: seq<nat>)
    ensures |origin| == |DetectTable(lines).dataRows|
    ensures forall n :: 0 <= n < |origin| ==>
      origin[n] < |lines| && |ExtractNumbers(lines[origin[n]])| >= 2 &&
      DetectTable(lines).dataRows[n] == DataRow(lines[origin[n]], ExtractNumbers(lines[origin[n]]))
    ensures forall n, m :: 0 <= n < m < |origin| ==> origin[n] < origin[m]
  {
    ForwardScanIsReference(lines, Kind);
    origin := ReferenceShape(lines, Kind);
    var rows := ForwardReference(lines, Kind).dataRows;
    assert DetectTable(lines).dataRows == rows;
    forall n | 0 <= n < |origin|
      ensures |ExtractNumbers(lines[origin[n]])| >= 2
      ensures rows[n] == DataRow(lines[origin[n]], ExtractNumbers(lines[origin[n]]))
    {
      assert FromLine(lines, Kind, origin[n], rows[n]);
    }
  }

  // ---------------------------------------------------------------------
  // Properties of the validation
  // ---------------------------------------------------------------------

  /** A number is collected exactly when some data row carries it. */
  lemma {:induction false} AllNumbersMembers(rows: seq<DataRow>, x: real)
    ensures x in AllNumbers(rows) <==> exists k :: 0 <= k < |rows| && x in rows[k].numbers
  {
    if rows != [] {
      var init := rows[..|rows| - 1];
      AllNumbersMembers(init, x);
      assert forall k :: 0 <= k < |init| ==> init[k] == rows[k];
      if x in AllNumbers(rows) && x !in AllNumbers(init) {
        assert x in rows[|rows| - 1].numbers;
      }
    }
  }

  /** Nothing is collected exactly when no data row carries a number. */
  lemma {:induction false} AllNumbersEmpty(rows: seq<DataRow>)
    ensures AllNumbers(rows) == [] <==> forall k :: 0 <= k < |rows| ==> rows[k].numbers == []
  {
    if rows != [] {
      var init := rows[..|rows| - 1];
      AllNumbersEmpty(init);
      assert forall k :: 0 <= k < |init| ==> init[k] == rows[k];
    }
  }

  /** The stated total is the largest number of a non-empty total row, and
      there is none when the row is missing, empty or has no number. */
  lemma StatedTotalFacts(totalRow: Option<string>)
    ensures StatedTotal(totalRow).Some? <==> totalRow.Some? && ExtractNumbers(totalRow.value) != []
    ensures StatedTotal(totalRow).Some? ==>
      StatedTotal(totalRow).value in ExtractNumbers(totalRow.value) &&
      forall k :: 0 <= k < |ExtractNumbers(totalRow.value)| ==> ExtractNumbers(totalRow.value)[k] <= StatedTotal(totalRow).value
  {
    if totalRow.Some? && totalRow.value == [] {
      assert Matches(Signed, []) == [];
      assert ParsedTokens([]) == [];
    }
  }

  /** The early returns of `validate_calculations`: no data rows, or data
      rows without a single number. */
  lemma ValidateTableEarly(table: Table)
    ensures table.dataRows == [] ==> ValidateTable(table) == TableValidation(false, [NoRowsError], None, None)
    ensures table.dataRows != [] && (forall k :: 0 <= k < |table.dataRows| ==> table.dataRows[k].numbers == []) ==>
      ValidateTable(table) == TableValidation(false, [NoNumbersError], None, None)
    ensures (exists k :: 0 <= k < |table.dataRows| && table.dataRows[k].numbers != []) ==>
      ValidateTable(table).summary.Some?
  {
    AllNumbersEmpty(table.dataRows);
  }

  /** With a stated total, every number of the data rows is added up and
      compared with it, and the table is valid exactly when they differ by
      less than the tolerance. */
  lemma ValidateTableStated(table: Table)
    requires AllNumbers(table.dataRows) != [] && StatedTotal(table.totalRow).Some?
    ensures ValidateTable(table).resolved.Some?
    ensures ValidateTable(table).resolved.value.calculatedSum == Sum(AllNumbers(table.dataRows))
    ensures ValidateTable(table).resolved.value.reportedTotal == StatedTotal(table.totalRow).value
    ensures ValidateTable(table).resolved.value.numbersUsed == AllNumbers(table.dataRows)
    ensures ValidateTable(table).valid <==> WithinRounding(Sum(AllNumbers(table.dataRows)), StatedTotal(table.totalRow).value)
    ensures ValidateTable(table).errors == []
  {
    var all := AllNumbers(table.dataRows);
    var stated := StatedTotal(table.totalRow);
    assert table.dataRows != [];
    assert Resolution(all, stated) == (Sum(all), stated);
    var m := stated.value;
    assert stated == Some(m);
    assert ValidateTable(table) == Outcome(all, Sum(all), Some(m));
    OutcomeCompares(all, Sum(all), m);
  }

  /** A compared outcome records the absolute difference and is valid within
      the rounding tolerance; a one-step helper for `ValidateTableStated`. */
  lemma OutcomeCompares(all: seq<real>, calculatedSum: real, reportedTotal: real)
    ensures Outcome(all, calculatedSum, Some(reportedTotal)).resolved ==
      Some(Resolved(calculatedSum, reportedTotal, Abs(calculatedSum - reportedTotal), all))
    ensures Outcome(all, calculatedSum, Some(reportedTotal)).valid <==> WithinRounding(calculatedSum, reportedTotal)
    ensures Outcome(all, calculatedSum, Some(reportedTotal)).errors == []
  {
  }

  /** Without a stated total the largest number is taken as the total only
      when the other numbers add up to it, so a table resolved this way is
      always valid; otherwise the total stays unresolved and the table invalid. */
  lemma ValidateTableFallback(table: Table)
    requires AllNumbers(table.dataRows) != [] && StatedTotal(table.totalRow).None?
    ensures ValidateTable(table).resolved.Some? <==> FallbackApplies(AllNumbers(table.dataRows))
    ensures ValidateTable(table).resolved.Some? ==>
      ValidateTable(table).valid &&
      ValidateTable(table).resolved.value.reportedTotal == Max(AllNumbers(table.dataRows)) &&
      ValidateTable(table).resolved.value.calculatedSum ==
        Sum(Without(AllNumbers(table.dataRows), Max(AllNumbers(table.dataRows))))
    ensures ValidateTable(table).resolved.None? ==>
      ValidateTable(table) == TableValidation(false, [NoTotalError], None,
        Some(TableSummary(UnresolvedStatus, NumbersMessage(AllNumbers(table.dataRows), Sum(AllNumbers(table.dataRows))))))
  {
    assert table.dataRows != [];
  }

  /** What every outcome of `validate_calculations` satisfies: at most one
      error, an error exactly when no comparison was made, and a compared
      table is valid exactly within the tolerance, with the correct or the
      wrong status accordingly and the two sums as its message. */
  lemma ValidateTableOutcome(table: Table)
    ensures |ValidateTable(table).errors| <= 1
    ensures ValidateTable(table).errors == [] <==> ValidateTable(table).resolved.Some?
    ensures ValidateTable(table).resolved.Some? ==>
      ValidateTable(table).resolved.value.difference ==
        Abs(ValidateTable(table).resolved.value.calculatedSum - ValidateTable(table).resolved.value.reportedTotal) &&
      (ValidateTable(table).valid <==> ValidateTable(table).resolved.value.difference < RoundingTolerance)
    ensures ValidateTable(table).valid ==>
      ValidateTable(table).summary.Some? && ValidateTable(table).summary.value.status == CorrectStatus
    ensures ValidateTable(table).resolved.Some? ==>
      ValidateTable(table).summary == Some(TableSummary(
        if ValidateTable(table).valid then CorrectStatus else WrongStatus,
        SumsMessage(ValidateTable(table).resolved.value.calculatedSum, ValidateTable(table).resolved.value.reportedTotal)))
    ensures ValidateTable(table).resolved.None? ==> !ValidateTable(table).valid
  {
  }
}
