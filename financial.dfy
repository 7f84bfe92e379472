/** The financial report engine: extracting monetary amounts from OCR text
    line by line, taking the line with the largest amount as the total row,
    and reconciling the sum of the other rows against it. */
module Financial {
  import opened Util
  import opened Text
  import opened Regex
  import opened Decimal

  /** One amount-bearing line: its index in `text.split('\n')`, its stripped
      text, its distinct amounts, the total hint and the largest amount. */
  datatype Entry = Entry(lineNumber: nat, text: string, amounts: seq<real>, isTotal: bool, maxAmount: real)

  /** The largest line, marked as total (`is_total` and `detected_as_total`
      set), with whether the other lines' amounts add up to it within 10. */
  datatype TotalRow = TotalRow(entry: Entry, calculationMatches: bool)

  datatype Structure = Structure(dataRows: seq<Entry>, totalRows: seq<TotalRow>)

  /** The `message` of a summary; the two formatted ones carry the difference
      they print. */
  datatype Message =
    | Note(text: string)
    | RoundingNote(difference: real)
    | MismatchNote(difference: real)

  /** The `summary` dict of a validation. */
  datatype Verdict = Verdict(status: string, message: Message)

  datatype Details = Details(dataRowsCount: nat, totalRowsCount: nat, individualAmounts: seq<real>)

  /** The dict `validate_financial_calculations` returns; `details` is the empty
      dict (`None`) when there were no data amounts. */
  datatype Validation = Validation(
    valid: bool,
    dataAmounts: seq<real>,
    calculatedSum: real,
    reportedTotal: real,
    difference: real,
    details: Option<Details>,
    summary: Verdict)

  /** What `process_financial_report` returns: an error dict, or the full results. */
  datatype Report =
    | Failed(error: string)
    | Processed(filePath: string, rawText: string, financialData: seq<Entry>,
                structure: Structure, validation: Validation)

  const ErrorStatus: string := "❌ ERROR"
  const ExactStatus: string := "✅ CÁLCULO CORRECTO"
  const RoundingStatus: string := "✅ CÁLCULO CORRECTO (diferencia mínima)"
  const MismatchStatus: string := "❌ ERROR EN CÁLCULO DETECTADO"
  const NoDataMessage: string := "No se encontraron cantidades de datos para sumar"
  const ExactMessage: string := "La suma coincide exactamente con el total reportado"
  const NoTextError: string := "No se pudo extraer texto de la imagen"
  const NoAmountsError: string := "No se encontraron cantidades monetarias"

  /** Tolerance, in currency units, of both the total check and the verdict. */
  const Tolerance: real := 10.0

  /** Minimum value of an amount found without a `$` sign. */
  const PlainMinimum: real := 1000.0

  // ---------------------------------------------------------------------
  // extract_financial_amounts
  // ---------------------------------------------------------------------

  /** The total hint: the lowered line contains one of the keywords total,
      suma or subtotal. */
  predicate MentionsTotal(lowered: string)
  {
    Contains(lowered, "total") || Contains(lowered, "suma") || Contains(lowered, "subtotal")
  }

  /** The token with its commas removed, and its dollar signs too when it
      is a `$` token. */
  function CleanToken(tok: string, dollar: bool): (r: string)
    ensures forall c :: c in r <==> c in tok && c != ',' && (!dollar || c != '$')
  {
    if dollar then RemoveAll(tok, {'$', ','}) else RemoveAll(tok, {','})
  }

  /** The threshold of each pass: positive with `$`, at least 1000 without. */
  predicate Passes(amount: real, dollar: bool)
  {
    if dollar then amount > 0.0 else amount >= PlainMinimum
  }

  /** What one token contributes: its value when `float()` accepts the
      cleaned token and the value passes the threshold; nothing when
      `float()` raises `ValueError` or the value is below the threshold. */
  function TokenValue(tok: string, dollar: bool): (r: Option<real>)
    ensures r.Some? ==> Passes(r.value, dollar)
    ensures r.Some? <==> ParseFloat(CleanToken(tok, dollar)).Some? && Passes(ParseFloat(CleanToken(tok, dollar)).value, dollar)
    ensures r.Some? ==> r == ParseFloat(CleanToken(tok, dollar))
  {
    var parsed := ParseFloat(CleanToken(tok, dollar));
    if parsed.Some? && Passes(parsed.value, dollar) then parsed else None
  }

  /** The contribution of each token, in order. A proof helper: its ensures
      expose the comprehension element by element to the lemmas below. */
  function TokenValues(toks: seq<string>, dollar: bool): (vs: seq<Option<real>>)
    ensures |vs| == |toks|
    ensures forall k :: 0 <= k < |toks| ==> vs[k] == TokenValue(toks[k], dollar)
  {
    seq(|toks|, k requires 0 <= k < |toks| => TokenValue(toks[k], dollar))
  }

  /** The values a token loop appends, in token order. */
  function KeptValues(toks: seq<string>, dollar: bool): seq<real>
  {
    Somes(TokenValues(toks, dollar))
  }

  /** The amounts of a stripped line before de-duplication: those of the `$`
      pass, or, when it kept nothing, those of the fallback pass. */
  function LineAmounts(line: string): seq<real>
  {
    var withDollar := KeptValues(Matches(Dollar, line), true);
    if withDollar != [] then withDollar else KeptValues(Matches(Plain, line), false)
  }

  /** The total hint of line `k`: a keyword in the stripped line, or in the
      raw line before it. */
  predicate TotalHint(lines: seq<string>, k: nat)
    requires k < |lines|
  {
    MentionsTotal(Lower(Strip(lines[k]))) || (k > 0 && MentionsTotal(Lower(lines[k - 1])))
  }

  /** The entry line `k` yields, if any. */
  function EntryAt(lines: seq<string>, k: nat): Option<Entry>
    requires k < |lines|
  {
    var line := Strip(lines[k]);
    if line == [] then None
    else
      var amounts := Distinct(LineAmounts(line));
      if amounts == [] then None
      else Some(Entry(k, line, amounts, TotalHint(lines, k), Max(amounts)))
  }

  /** The entry of every line, `None` for the lines that yield none. A proof
      helper: its ensures expose the comprehension to the lemmas below. */
  function EntryTable(lines: seq<string>): (t: seq<Option<Entry>>)
    ensures |t| == |lines|
    ensures forall k :: 0 <= k < |lines| ==> t[k] == EntryAt(lines, k)
  {
    seq(|lines|, k requires 0 <= k < |lines| => EntryAt(lines, k))
  }

  /** The result of `extract_financial_amounts(text)`. */
  function FinancialData(text: string): seq<Entry>
  {
    Somes(EntryTable(Split(text)))
  }

  method ExtractFinancialAmounts(text: string) returns (financialData: seq<Entry>)
    ensures financialData == FinancialData(text)
  {
    financialData := [];
    var lines := Split(text);
    ghost var table := EntryTable(lines);
    var lineNum := 0;
    while lineNum < |lines|
      invariant lineNum <= |lines|
      invariant financialData == Somes(table[..lineNum])
    {
      var entry := LineEntry(lines, lineNum);
      SomesStep(table, lineNum);
      assert table[lineNum] == entry;
      if entry.Some? {
        financialData := financialData + [entry.value];
        assert financialData == Somes(table[..lineNum]) + [table[lineNum].value];
      }
      lineNum := lineNum + 1;
    }
    assert table[..lineNum] == table;
  }

  /** The body of the line loop of `extract_financial_amounts`. */
  method LineEntry(lines: seq<string>, lineNum: nat) returns (entry: Option<Entry>)
    requires lineNum < |lines|
    ensures entry == EntryAt(lines, lineNum)
  {
    var line := Strip(lines[lineNum]);
    if line == [] {
      return None;
    }
    var amounts := CollectAmounts(Matches(Dollar, line), true);
    if amounts == [] {
      amounts := CollectAmounts(Matches(Plain, line), false);
    }
    amounts := Distinct(amounts);
    if amounts == [] {
      return None;
    }
    var isTotalLine := false;
    if MentionsTotal(Lower(line)) {
      isTotalLine := true;
    } else if lineNum > 0 {
      var prevLine := Lower(lines[lineNum - 1]);
      if MentionsTotal(prevLine) {
        isTotalLine := true;
      }
    }
    entry := Some(Entry(lineNum, line, amounts, isTotalLine, Max(amounts)));
  }

  /** One of the two token loops: each match is cleaned, converted and kept
      when it passes the pass's threshold (`TokenValue`); a match `float()`
      rejects is skipped and the loop goes on. */
  method CollectAmounts(matches: seq<string>, dollar: bool) returns (amounts: seq<real>)
    ensures amounts == KeptValues(matches, dollar)
  {
    amounts := [];
    ghost var values := TokenValues(matches, dollar);
    var j := 0;
    while j < |matches|
      invariant j <= |matches|
      invariant amounts == Somes(values[..j])
    {
      SomesStep(values, j);
      var amount := TokenValue(matches[j], dollar);
      assert values[j] == amount;
      if amount.Some? {
        amounts := amounts + [amount.value];
        assert amounts == Somes(values[..j]) + [values[j].value];
      }
      j := j + 1;
    }
    assert values[..j] == values;
  }

  // ---------------------------------------------------------------------
  // identify_data_rows_and_total
  // ---------------------------------------------------------------------

  /** The `max_amount` of each entry, in order. */
  function MaxAmounts(data: seq<Entry>): (ms: seq<real>)
    ensures |ms| == |data|
    ensures forall i :: 0 <= i < |data| ==> ms[i] == data[i].maxAmount
  {
    if data == [] then [] else MaxAmounts(data[..|data| - 1]) + [data[|data| - 1].maxAmount]
  }

  /** The first index at which `m` occurs (the `for ... break` search). */
  function FirstIndexOf(ms: seq<real>, m: real): (idx: nat)
    requires m in ms
    ensures idx < |ms| && ms[idx] == m
    ensures forall j :: 0 <= j < idx ==> ms[j] != m
  {
    if ms[0] == m then 0 else 1 + FirstIndexOf(ms[1..], m)
  }

  /** The entries different from `item`, in order. */
  function Others(data: seq<Entry>, item: Entry): seq<Entry>
  {
    if data == [] then []
    else if data[|data| - 1] != item then Others(data[..|data| - 1], item) + [data[|data| - 1]]
    else Others(data[..|data| - 1], item)
  }

  /** The amounts of the entries different from `item`, concatenated in order. */
  function OtherAmounts(data: seq<Entry>, item: Entry): seq<real>
  {
    if data == [] then []
    else if data[|data| - 1] != item then OtherAmounts(data[..|data| - 1], item) + data[|data| - 1].amounts
    else OtherAmounts(data[..|data| - 1], item)
  }

  /** Index of the total row: the first entry whose `max_amount` is the maximum. */
  function TotalIndex(data: seq<Entry>): nat
    requires data != []
  {
    FirstIndexOf(MaxAmounts(data), Max(MaxAmounts(data)))
  }

  /** The result of `identify_data_rows_and_total(data)`. */
  function Classify(data: seq<Entry>): Structure
  {
    if data == [] then Structure([], [])
    else
      var largestAmount := Max(MaxAmounts(data));
      var largestItem := data[TotalIndex(data)];
      var difference := Abs(Sum(OtherAmounts(data, largestItem)) - largestAmount);
      Structure(Others(data, largestItem), [TotalRow(largestItem.(isTotal := true), difference <= Tolerance)])
  }

  method IdentifyDataRowsAndTotal(financialData: seq<Entry>) returns (structure: Structure)
    ensures structure == Classify(financialData)
  {
    var dataRows: seq<Entry> := [];
    var totalRows: seq<TotalRow> := [];
    if financialData != [] {
      var largestAmount := Max(MaxAmounts(financialData));
      var largestItem := FindLargestItem(financialData, largestAmount);
      if largestItem.Some? {
        var item := largestItem.value;
        var otherAmounts := CollectOtherAmounts(financialData, item);
        var calculatedSum := Sum(otherAmounts);
        var difference := Abs(calculatedSum - largestAmount);
        totalRows := totalRows + [TotalRow(item.(isTotal := true), difference <= Tolerance)];
        dataRows := CollectOthers(financialData, item);
      } else {
        // The fallback. The maximum is some entry's `max_amount`, so the
        // search always finds one and this branch is never taken.
        dataRows := financialData;
      }
    }
    structure := Structure(dataRows, totalRows);
  }

  /** The `for ... break` search for the first entry whose `max_amount` is `largestAmount`. */
  method FindLargestItem(financialData: seq<Entry>, largestAmount: real) returns (largestItem: Option<Entry>)
    ensures largestAmount in MaxAmounts(financialData) ==>
      largestItem == Some(financialData[FirstIndexOf(MaxAmounts(financialData), largestAmount)])
    ensures largestAmount !in MaxAmounts(financialData) ==> largestItem.None?
  {
    largestItem := None;
    var i := 0;
    while i < |financialData|
      invariant i <= |financialData|
      invariant forall j :: 0 <= j < i ==> financialData[j].maxAmount != largestAmount
    {
      if financialData[i].maxAmount == largestAmount {
        largestItem := Some(financialData[i]);
        FirstIndexOfIs(MaxAmounts(financialData), largestAmount, i);
        return;
      }
      i := i + 1;
    }
  }

  /** An index holding `m` with no `m` before it is the first index of `m`. */
  lemma {:induction false} FirstIndexOfIs(ms: seq<real>, m: real, i: nat)
    requires i < |ms| && ms[i] == m
    requires forall j :: 0 <= j < i ==> ms[j] != m
    ensures FirstIndexOf(ms, m) == i
  {
    if i > 0 {
      FirstIndexOfIs(ms[1..], m, i - 1);
    }
  }

  /** The `extend` loop over the entries other than the total. */
  method CollectOtherAmounts(financialData: seq<Entry>, item: Entry) returns (otherAmounts: seq<real>)
    ensures otherAmounts == OtherAmounts(financialData, item)
  {
    otherAmounts := [];
    var j := 0;
    while j < |financialData|
      invariant j <= |financialData|
      invariant otherAmounts == OtherAmounts(financialData[..j], item)
    {
      assert financialData[..j + 1][..j] == financialData[..j];
      if financialData[j] != item {
        otherAmounts := otherAmounts + financialData[j].amounts;
      }
      j := j + 1;
    }
    assert financialData[..j] == financialData;
  }

  /** The loop that keeps the entries other than the total as data rows. */
  method CollectOthers(financialData: seq<Entry>, item: Entry) returns (dataRows: seq<Entry>)
    ensures dataRows == Others(financialData, item)
  {
    dataRows := [];
    var j := 0;
    while j < |financialData|
      invariant j <= |financialData|
      invariant dataRows == Others(financialData[..j], item)
    {
      assert financialData[..j + 1][..j] == financialData[..j];
      if financialData[j] != item {
        dataRows := dataRows + [financialData[j]];
      }
      j := j + 1;
    }
    assert financialData[..j] == financialData;
  }

  // ---------------------------------------------------------------------
  // validate_financial_calculations
  // ---------------------------------------------------------------------

  /** `data_amounts`: the largest amount of each data row that has amounts. */
  function RowMaxima(rows: seq<Entry>): seq<real>
  {
    if rows == [] then []
    else
      var row := rows[|rows| - 1];
      if row.amounts != [] then RowMaxima(rows[..|rows| - 1]) + [Max(row.amounts)] else RowMaxima(rows[..|rows| - 1])
  }

  /** `total_amounts`: the amounts of every total row, concatenated. */
  function TotalAmounts(totalRows: seq<TotalRow>): seq<real>
  {
    if totalRows == [] then [] else TotalAmounts(totalRows[..|totalRows| - 1]) + totalRows[|totalRows| - 1].entry.amounts
  }

  /** `reported_total`: the largest total amount, or 0 when there is none. */
  function ReportedTotal(totalRows: seq<TotalRow>): real
  {
    var totalAmounts := TotalAmounts(totalRows);
    if totalAmounts != [] then Max(totalAmounts) else 0.0
  }

  /** The status and message chosen, first match, by the difference. */
  function VerdictFor(difference: real): Verdict
  {
    if difference == 0.0 then Verdict(ExactStatus, Note(ExactMessage))
    else if difference <= Tolerance then Verdict(RoundingStatus, RoundingNote(difference))
    else Verdict(MismatchStatus, MismatchNote(difference))
  }

  /** The result of `validate_financial_calculations(dataRows, totalRows)`. */
  function Validate(dataRows: seq<Entry>, totalRows: seq<TotalRow>): Validation
  {
    var dataAmounts := RowMaxima(dataRows);
    if dataAmounts == [] then
      Validation(false, [], 0.0, 0.0, 0.0, None, Verdict(ErrorStatus, Note(NoDataMessage)))
    else
      var calculatedSum := Sum(dataAmounts);
      var reportedTotal := ReportedTotal(totalRows);
      var difference := Abs(calculatedSum - reportedTotal);
      Validation(difference <= Tolerance, dataAmounts, calculatedSum, reportedTotal, difference,
                 Some(Details(|dataRows|, |totalRows|, dataAmounts)), VerdictFor(difference))
  }

  method ValidateFinancialCalculations(dataRows: seq<Entry>, totalRows: seq<TotalRow>) returns (results: Validation)
    ensures results == Validate(dataRows, totalRows)
  {
    results := Validation(false, [], 0.0, 0.0, 0.0, None, Verdict("", Note("")));
    var dataAmounts := CollectRowMaxima(dataRows);
    if dataAmounts == [] {
      results := results.(summary := Verdict(ErrorStatus, Note(NoDataMessage)));
      return;
    }
    var calculatedSum := Sum(dataAmounts);
    var reportedTotal := 0.0;
    if totalRows != [] {
      var totalAmounts := CollectTotalAmounts(totalRows);
      if totalAmounts != [] {
        reportedTotal := Max(totalAmounts);
      }
    }
    var difference := Abs(calculatedSum - reportedTotal);
    var isValid := difference <= Tolerance;
    var verdict;
    if difference == 0.0 {
      verdict := Verdict(ExactStatus, Note(ExactMessage));
    } else if difference <= Tolerance {
      verdict := Verdict(RoundingStatus, RoundingNote(difference));
    } else {
      verdict := Verdict(MismatchStatus, MismatchNote(difference));
    }
    assert verdict == VerdictFor(difference);
    assert reportedTotal == ReportedTotal(totalRows);
    results := results.(valid := isValid, dataAmounts := dataAmounts, calculatedSum := calculatedSum,
                        reportedTotal := reportedTotal, difference := difference,
                        details := Some(Details(|dataRows|, |totalRows|, dataAmounts)), summary := verdict);
  }

  /** The loop that collects `data_amounts`. */
  method CollectRowMaxima(dataRows: seq<Entry>) returns (dataAmounts: seq<real>)
    ensures dataAmounts == RowMaxima(dataRows)
  {
    dataAmounts := [];
    var i := 0;
    while i < |dataRows|
      invariant i <= |dataRows|
      invariant dataAmounts == RowMaxima(dataRows[..i])
    {
      assert dataRows[..i + 1][..i] == dataRows[..i];
      var row := dataRows[i];
      if row.amounts != [] {
        var amount := Max(row.amounts);
        dataAmounts := dataAmounts + [amount];
      }
      i := i + 1;
    }
    assert dataRows[..i] == dataRows;
  }

  /** The `extend` loop that collects `total_amounts`. */
  method CollectTotalAmounts(totalRows: seq<TotalRow>) returns (totalAmounts: seq<real>)
    ensures totalAmounts == TotalAmounts(totalRows)
  {
    totalAmounts := [];
    var k := 0;
    while k < |totalRows|
      invariant k <= |totalRows|
      invariant totalAmounts == TotalAmounts(totalRows[..k])
    {
      assert totalRows[..k + 1][..k] == totalRows[..k];
      totalAmounts := totalAmounts + totalRows[k].entry.amounts;
      k := k + 1;
    }
    assert totalRows[..k] == totalRows;
  }

  // ---------------------------------------------------------------------
  // process_financial_report, from the OCR text on
  // ---------------------------------------------------------------------

  /** The decision chain of `process_financial_report` once the text is known. */
  function ProcessFinancialReport(filePath: string, rawText: string): Report
  {
    if rawText == [] then Failed(NoTextError)
    else
      var financialData := FinancialData(rawText);
      if financialData == [] then Failed(NoAmountsError)
      else
        var structure := Classify(financialData);
        Processed(filePath, rawText, financialData, structure, Validate(structure.dataRows, structure.totalRows))
  }


  // ---------------------------------------------------------------------
  // Properties of the extraction
  // ---------------------------------------------------------------------

  /** A `$` token converts exactly when it holds a digit: `float()` rejects
      only the digit-less ones such as `$,`. */
  lemma DollarTokenParses(t: string)
    requires TokenShape(Dollar, t)
    ensures ParseFloat(CleanToken(t, true)).Some? <==> HasDigit(t)
  {
    var u := t[1..];
    var cs := {'$', ','};
    assert CleanToken(t, true) == RemoveAll(u, cs) by {
      assert t == [t[0]] + u;
      RemoveAllAppend([t[0]], u, cs);
      assert RemoveAll([t[0]], cs) == [];
    }
    CommaNumberParses(u, cs);
    HasDigitAfterSign(t);
  }

  /** A text whose first character is not a digit has a digit exactly when
      the rest has one. */
  lemma HasDigitAfterSign(t: string)
    requires |t| > 0 && !IsDigit(t[0])
    ensures HasDigit(t) <==> HasDigit(t[1..])
  {
    if HasDigit(t) {
      var j :| 0 <= j < |t| && IsDigit(t[j]);
      assert IsDigit(t[1..][j - 1]);
    }
    if HasDigit(t[1..]) {
      var j :| 0 <= j < |t[1..]| && IsDigit(t[1..][j]);
      assert IsDigit(t[j + 1]);
    }
  }

  /** A fallback token converts exactly when it holds a digit. */
  lemma PlainTokenParses(t: string)
    requires TokenShape(Plain, t)
    ensures ParseFloat(CleanToken(t, false)).Some? <==> HasDigit(t)
  {
    CommaNumberParses(t, {','});
  }

  /** A value is kept exactly when some token yields it, whatever the other
      tokens do: a token that fails is skipped without affecting the rest. */
  lemma KeptValuesMembers(toks: seq<string>, dollar: bool, x: real)
    ensures x in KeptValues(toks, dollar) <==> exists k :: 0 <= k < |toks| && TokenValue(toks[k], dollar) == Some(x)
    ensures x in KeptValues(toks, dollar) ==> Passes(x, dollar)
  {
    var vs := TokenValues(toks, dollar);
    SomesMembers(vs, x);
    if Some(x) in vs {
      var k :| 0 <= k < |vs| && vs[k] == Some(x);
      assert TokenValue(toks[k], dollar) == Some(x);
    }
  }

  /** A pass keeps nothing exactly when none of its tokens yields a value. */
  lemma KeptValuesEmpty(toks: seq<string>, dollar: bool)
    ensures KeptValues(toks, dollar) == [] <==> forall k :: 0 <= k < |toks| ==> TokenValue(toks[k], dollar).None?
  {
    SomesEmpty(TokenValues(toks, dollar));
  }

  /** The values of a line are positive. They are those of its `$` tokens
      when one of those yields a value; otherwise they are those of its
      fallback tokens, and then they are at least 1000. */
  lemma LineAmountsMembers(line: string, x: real)
    ensures x in LineAmounts(line) ==> x > 0.0
    ensures (exists k :: 0 <= k < |Matches(Dollar, line)| && TokenValue(Matches(Dollar, line)[k], true).Some?) ==>
      (x in LineAmounts(line) <==> exists k :: 0 <= k < |Matches(Dollar, line)| && TokenValue(Matches(Dollar, line)[k], true) == Some(x))
    ensures (forall k :: 0 <= k < |Matches(Dollar, line)| ==> TokenValue(Matches(Dollar, line)[k], true).None?) ==>
      (x in LineAmounts(line) <==> exists k :: 0 <= k < |Matches(Plain, line)| && TokenValue(Matches(Plain, line)[k], false) == Some(x))
      && (x in LineAmounts(line) ==> x >= PlainMinimum)
  {
    KeptValuesMembers(Matches(Dollar, line), true, x);
    KeptValuesMembers(Matches(Plain, line), false, x);
    KeptValuesEmpty(Matches(Dollar, line), true);
  }

  /** What an extracted entry holds: the stripped, non-blank text of its
      line, a non-empty list of distinct positive amounts that are exactly
      the line's values, their maximum, and the keyword rule for `is_total`. */
  lemma EntryAtFacts(lines: seq<string>, k: nat)
    requires k < |lines|
    ensures AllSpace(lines[k]) ==> EntryAt(lines, k).None?
    ensures EntryAt(lines, k).Some? ==>
      var e := EntryAt(lines, k).value;
      && e.lineNumber == k
      && e.text == Strip(lines[k]) && e.text != []
      && |e.amounts| > 0 && NoDuplicates(e.amounts)
      && e.maxAmount in e.amounts
      && (forall i :: 0 <= i < |e.amounts| ==> 0.0 < e.amounts[i] <= e.maxAmount)
      && (forall x :: x in e.amounts <==> x in LineAmounts(e.text))
      && (e.isTotal <==> MentionsTotal(Lower(e.text)) || (k > 0 && MentionsTotal(Lower(lines[k - 1]))))
  {
    if EntryAt(lines, k).Some? {
      var e := EntryAt(lines, k).value;
      forall i | 0 <= i < |e.amounts| ensures e.amounts[i] > 0.0 {
        LineAmountsMembers(e.text, e.amounts[i]);
      }
    }
  }

  /** The entry-level facts downstream stages rely on. */
  predicate WellFormed(e: Entry)
  {
    |e.amounts| > 0 && NoDuplicates(e.amounts) && e.maxAmount == Max(e.amounts)
    && forall i :: 0 <= i < |e.amounts| ==> e.amounts[i] > 0.0
  }

  /** Collecting a table in which every entry sits at the index of its line
      gives the present entries in strictly increasing line order. */
  lemma {:induction false} CollectedInLineOrder(t: seq<Option<Entry>>)
    requires forall k :: 0 <= k < |t| && t[k].Some? ==> t[k].value.lineNumber == k
    ensures forall i :: 0 <= i < |Somes(t)| ==>
      Somes(t)[i].lineNumber < |t| && t[Somes(t)[i].lineNumber] == Some(Somes(t)[i])
    ensures forall i, j :: 0 <= i < j < |Somes(t)| ==> Somes(t)[i].lineNumber < Somes(t)[j].lineNumber
  {
    if t != [] {
      var init := t[..|t| - 1];
      CollectedInLineOrder(init);
      var prefix := Somes(init);
      assert forall i :: 0 <= i < |prefix| ==> prefix[i].lineNumber < |init| && t[prefix[i].lineNumber] == Some(prefix[i]);
      if t[|t| - 1].Some? {
        var all := prefix + [t[|t| - 1].value];
        assert Somes(t) == all;
        assert all[|all| - 1].lineNumber == |t| - 1;
        assert forall i :: 0 <= i < |prefix| ==> all[i] == prefix[i];
      }
    }
  }

  /** Every extracted entry is the entry of its own line, and the entries
      come in strictly increasing line order. */
  lemma FinancialDataFromLines(text: string)
    ensures forall i :: 0 <= i < |FinancialData(text)| ==>
      FinancialData(text)[i].lineNumber < |Split(text)|
      && EntryAt(Split(text), FinancialData(text)[i].lineNumber) == Some(FinancialData(text)[i])
    ensures forall i, j :: 0 <= i < j < |FinancialData(text)| ==>
      FinancialData(text)[i].lineNumber < FinancialData(text)[j].lineNumber
  {
    var lines := Split(text);
    var t := EntryTable(lines);
    forall k | 0 <= k < |t| && t[k].Some? ensures t[k].value.lineNumber == k {
      EntryAtFacts(lines, k);
    }
    CollectedInLineOrder(t);
  }

  /** Every extracted entry is well-formed. */
  lemma FinancialDataEntriesWellFormed(text: string)
    ensures forall i :: 0 <= i < |FinancialData(text)| ==> WellFormed(FinancialData(text)[i])
  {
    var lines := Split(text);
    var data := FinancialData(text);
    FinancialDataFromLines(text);
    forall i | 0 <= i < |data| ensures WellFormed(data[i]) {
      var k := data[i].lineNumber;
      EntryAtFacts(lines, k);
      MaxUnique(data[i].amounts, data[i].maxAmount);
    }
  }

  /** Every line that yields an entry contributes it. */
  lemma FinancialDataComplete(text: string)
    ensures forall k :: 0 <= k < |Split(text)| && EntryAt(Split(text), k).Some? ==>
      EntryAt(Split(text), k).value in FinancialData(text)
  {
    var lines := Split(text);
    var t := EntryTable(lines);
    forall k | 0 <= k < |lines| && EntryAt(lines, k).Some? ensures EntryAt(lines, k).value in Somes(t) {
      SomesMembers(t, EntryAt(lines, k).value);
      assert t[k] == EntryAt(lines, k);
    }
  }

  /** What `extract_financial_amounts` returns: the entries of exactly the
      lines that yield one, in strictly increasing line order, each
      well-formed. */
  lemma FinancialDataFacts(text: string)
    ensures forall i :: 0 <= i < |FinancialData(text)| ==>
      FinancialData(text)[i].lineNumber < |Split(text)|
      && EntryAt(Split(text), FinancialData(text)[i].lineNumber) == Some(FinancialData(text)[i])
      && WellFormed(FinancialData(text)[i])
    ensures forall i, j :: 0 <= i < j < |FinancialData(text)| ==>
      FinancialData(text)[i].lineNumber < FinancialData(text)[j].lineNumber
    ensures forall k :: 0 <= k < |Split(text)| && EntryAt(Split(text), k).Some? ==>
      EntryAt(Split(text), k).value in FinancialData(text)
  {
    FinancialDataFromLines(text);
    FinancialDataEntriesWellFormed(text);
    FinancialDataComplete(text);
  }

  // ---------------------------------------------------------------------
  // Properties of the classification
  // ---------------------------------------------------------------------

  /** Strictly increasing line numbers, as extraction produces them. */
  predicate InLineOrder(data: seq<Entry>)
  {
    forall i, j :: 0 <= i < j < |data| ==> data[i].lineNumber < data[j].lineNumber
  }

  /** The amounts of `rows`, concatenated in order. */
  function AllAmounts(rows: seq<Entry>): seq<real>
  {
    if rows == [] then [] else AllAmounts(rows[..|rows| - 1]) + rows[|rows| - 1].amounts
  }

  lemma {:induction false} OthersOfAbsent(data: seq<Entry>, item: Entry)
    requires item !in data
    ensures Others(data, item) == data
    ensures OtherAmounts(data, item) == AllAmounts(data)
  {
    if data != [] {
      var init := data[..|data| - 1];
      assert data == init + [data[|data| - 1]];
      OthersOfAbsent(init, item);
    }
  }

  /** Excluding an entry that occurs once removes exactly that position. */
  lemma {:induction false} OthersOfUnique(data: seq<Entry>, t: nat)
    requires t < |data|
    requires forall j :: 0 <= j < |data| && j != t ==> data[j] != data[t]
    ensures Others(data, data[t]) == data[..t] + data[t + 1..]
    ensures OtherAmounts(data, data[t]) == AllAmounts(data[..t] + data[t + 1..])
  {
    var item := data[t];
    var init := data[..|data| - 1];
    var last := data[|data| - 1];
    if t == |data| - 1 {
      assert init == data[..t] + data[t + 1..];
      assert item !in init by {
        forall j | 0 <= j < |init| ensures init[j] != item {
          assert init[j] == data[j];
        }
      }
      OthersOfAbsent(init, item);
    } else {
      assert init[t] == item;
      forall j | 0 <= j < |init| && j != t ensures init[j] != init[t] {
        assert init[j] == data[j];
      }
      OthersOfUnique(init, t);
      var rest := init[..t] + init[t + 1..];
      assert rest + [last] == data[..t] + data[t + 1..];
      assert (rest + [last])[..|rest + [last]| - 1] == rest;
    }
  }

  /** In line order, entries at different positions differ. */
  lemma InLineOrderUnique(data: seq<Entry>, t: nat)
    requires InLineOrder(data) && t < |data|
    ensures forall j :: 0 <= j < |data| && j != t ==> data[j] != data[t]
  {
    forall j | 0 <= j < |data| && j != t ensures data[j] != data[t] {
      if j < t {
        assert data[j].lineNumber < data[t].lineNumber;
      } else {
        assert data[t].lineNumber < data[j].lineNumber;
      }
    }
  }

  /** `identify_data_rows_and_total`: no entry gives two empty lists;
      otherwise the single total row is the first entry with the largest
      `max_amount`, marked as total. */
  lemma ClassifyTotal(data: seq<Entry>)
    ensures data == [] ==> Classify(data) == Structure([], [])
    ensures data != [] ==>
      var t := TotalIndex(data);
      && t < |data|
      && (forall j :: 0 <= j < |data| ==> data[j].maxAmount <= data[t].maxAmount)
      && (forall j :: 0 <= j < t ==> data[j].maxAmount < data[t].maxAmount)
      && Classify(data).totalRows == [TotalRow(data[t].(isTotal := true), Classify(data).totalRows[0].calculationMatches)]
  {
    if data != [] {
      var t := TotalIndex(data);
      assert MaxAmounts(data)[t] == Max(MaxAmounts(data));
    }
  }

  /** For entries in line order, the data rows are all the entries but the
      total row, in order. */
  lemma ClassifyPartition(data: seq<Entry>)
    requires data != [] && InLineOrder(data)
    ensures Classify(data).dataRows == data[..TotalIndex(data)] + data[TotalIndex(data) + 1..]
    ensures |Classify(data).dataRows| + 1 == |data|
  {
    var t := TotalIndex(data);
    assert MaxAmounts(data)[t] == Max(MaxAmounts(data));
    InLineOrderUnique(data, t);
    OthersOfUnique(data, t);
  }

  /** For entries in line order, `calculation_matches` says whether all the
      amounts of the data rows add up to the largest amount within 10. */
  lemma ClassifyMatches(data: seq<Entry>)
    requires data != [] && InLineOrder(data)
    ensures Classify(data).totalRows[0].calculationMatches <==>
      Abs(Sum(AllAmounts(Classify(data).dataRows)) - data[TotalIndex(data)].maxAmount) <= Tolerance
  {
    var t := TotalIndex(data);
    assert MaxAmounts(data)[t] == Max(MaxAmounts(data));
    InLineOrderUnique(data, t);
    OthersOfUnique(data, t);
    var item := data[t];
    var st := Classify(data);
    assert st.dataRows == Others(data, item);
    var difference := Abs(Sum(OtherAmounts(data, item)) - Max(MaxAmounts(data)));
    assert st.totalRows == [TotalRow(item.(isTotal := true), difference <= Tolerance)];
    assert AllAmounts(st.dataRows) == OtherAmounts(data, item);
    assert Max(MaxAmounts(data)) == item.maxAmount;
    assert Sum(AllAmounts(st.dataRows)) == Sum(OtherAmounts(data, item));
    var gap := Sum(AllAmounts(st.dataRows)) - item.maxAmount;
    assert gap == Sum(OtherAmounts(data, item)) - Max(MaxAmounts(data));
    assert Abs(gap) == difference;
  }

  // ---------------------------------------------------------------------
  // Properties of the validation
  // ---------------------------------------------------------------------

  /** `data_amounts` is empty exactly when no row has amounts, and each of
      its values is the largest amount of some row. */
  lemma {:induction false} RowMaximaFacts(rows: seq<Entry>)
    ensures |RowMaxima(rows)| <= |rows|
    ensures RowMaxima(rows) == [] <==> forall k :: 0 <= k < |rows| ==> rows[k].amounts == []
    ensures forall x :: x in RowMaxima(rows) ==>
      exists k :: 0 <= k < |rows| && rows[k].amounts != [] && x == Max(rows[k].amounts)
  {
    if rows != [] {
      var init := rows[..|rows| - 1];
      RowMaximaFacts(init);
      assert forall k :: 0 <= k < |init| ==> init[k] == rows[k];
    }
  }

  /** For well-formed rows `data_amounts` is the `max_amount` of every row. */
  lemma {:induction false} RowMaximaOfWellFormed(rows: seq<Entry>)
    requires forall k :: 0 <= k < |rows| ==> WellFormed(rows[k])
    ensures RowMaxima(rows) == MaxAmounts(rows)
  {
    if rows != [] {
      RowMaximaOfWellFormed(rows[..|rows| - 1]);
    }
  }

  /** `total_amounts` holds exactly the amounts of the total rows. */
  lemma {:induction false} TotalAmountsMembers(totalRows: seq<TotalRow>, x: real)
    ensures x in TotalAmounts(totalRows) <==>
      exists k :: 0 <= k < |totalRows| && x in totalRows[k].entry.amounts
  {
    if totalRows != [] {
      var init := totalRows[..|totalRows| - 1];
      TotalAmountsMembers(init, x);
      assert forall k :: 0 <= k < |init| ==> init[k] == totalRows[k];
    }
  }

  /** `reported_total` is the largest amount of any total row, or 0 when the
      total rows hold no amount. */
  lemma ReportedTotalFacts(totalRows: seq<TotalRow>)
    ensures (forall k :: 0 <= k < |totalRows| ==> totalRows[k].entry.amounts == []) ==>
      ReportedTotal(totalRows) == 0.0
    ensures (exists k :: 0 <= k < |totalRows| && totalRows[k].entry.amounts != []) ==>
      (exists k :: 0 <= k < |totalRows| && ReportedTotal(totalRows) in totalRows[k].entry.amounts)
      && (forall k, i :: 0 <= k < |totalRows| && 0 <= i < |totalRows[k].entry.amounts| ==>
            totalRows[k].entry.amounts[i] <= ReportedTotal(totalRows))
  {
    var all := TotalAmounts(totalRows);
    if all != [] {
      TotalAmountsMembers(totalRows, all[0]);
      TotalAmountsMembers(totalRows, Max(all));
      forall k, i | 0 <= k < |totalRows| && 0 <= i < |totalRows[k].entry.amounts|
        ensures totalRows[k].entry.amounts[i] <= ReportedTotal(totalRows)
      {
        TotalAmountsMembers(totalRows, totalRows[k].entry.amounts[i]);
      }
    } else {
      forall k | 0 <= k < |totalRows| ensures totalRows[k].entry.amounts == [] {
        if totalRows[k].entry.amounts != [] {
          TotalAmountsMembers(totalRows, totalRows[k].entry.amounts[0]);
        }
      }
    }
  }

  /** The total row of a single entry reports that entry's largest amount. */
  lemma ReportedTotalOfOne(e: Entry, matches: bool)
    requires WellFormed(e)
    ensures ReportedTotal([TotalRow(e, matches)]) == e.maxAmount
  {
    assert TotalAmounts([TotalRow(e, matches)]) == e.amounts by {
      assert [TotalRow(e, matches)][..0] == [];
    }
  }

  /** The status is chosen first match: the exact status for no difference,
      the rounding status up to 10, the mismatch status beyond. So it starts
      with `✅` exactly when the difference is within 10 and carries the
      `❌ ERROR` marker exactly otherwise. */
  lemma VerdictMatchesValidity(difference: real)
    requires difference >= 0.0
    ensures VerdictFor(difference).status ==
      if difference == 0.0 then ExactStatus else if difference <= Tolerance then RoundingStatus else MismatchStatus
    ensures VerdictFor(difference).status[0] == '✅' <==> difference <= Tolerance
    ensures VerdictFor(difference).status == ExactStatus <==> difference == 0.0
    ensures Contains(VerdictFor(difference).status, ErrorStatus) <==> difference > Tolerance
  {
    if difference > Tolerance {
      ContainsPrefix(MismatchStatus, ErrorStatus);
    } else {
      CorrectStatusesUnmarked();
    }
  }

  /** Neither correct status contains the `❌ ERROR` marker. */
  lemma CorrectStatusesUnmarked()
    ensures !Contains(ExactStatus, ErrorStatus)
    ensures !Contains(RoundingStatus, ErrorStatus)
  {
    assert '❌' !in ExactStatus;
    NotContainsFirst(ExactStatus, ErrorStatus);
    assert '❌' !in RoundingStatus;
    NotContainsFirst(RoundingStatus, ErrorStatus);
  }

  /** `validate_financial_calculations`: with no data amounts the result is
      invalid with a `❌ ERROR` summary and zero sums; otherwise it compares
      the sum of the largest amount of each data row with the reported total,
      is valid exactly when they are within 10 of each other, and its status
      is the one that difference selects. */
  lemma ValidateFacts(dataRows: seq<Entry>, totalRows: seq<TotalRow>)
    ensures Validate(dataRows, totalRows).dataAmounts == RowMaxima(dataRows)
    ensures (forall k :: 0 <= k < |dataRows| ==> dataRows[k].amounts == []) ==>
      var v := Validate(dataRows, totalRows);
      && !v.valid && v.calculatedSum == 0.0 && v.reportedTotal == 0.0 && v.difference == 0.0
      && v.details.None? && v.summary == Verdict(ErrorStatus, Note(NoDataMessage))
    ensures (exists k :: 0 <= k < |dataRows| && dataRows[k].amounts != []) ==>
      var v := Validate(dataRows, totalRows);
      && v.calculatedSum == Sum(RowMaxima(dataRows))
      && v.reportedTotal == ReportedTotal(totalRows)
      && v.difference == Abs(v.calculatedSum - v.reportedTotal)
      && (v.valid <==> v.difference <= Tolerance)
      && (v.summary.status[0] == '✅' <==> v.valid)
      && (v.summary.status == ExactStatus <==> v.calculatedSum == v.reportedTotal)
      && v.summary.status ==
           (if v.difference == 0.0 then ExactStatus
            else if v.difference <= Tolerance then RoundingStatus else MismatchStatus)
      && v.details == Some(Details(|dataRows|, |totalRows|, RowMaxima(dataRows)))
  {
    RowMaximaFacts(dataRows);
    var v := Validate(dataRows, totalRows);
    if RowMaxima(dataRows) != [] {
      VerdictMatchesValidity(v.difference);
    }
  }

  /** The status carries the `❌ ERROR` marker exactly when the validation is
      invalid (what the batch summary relies on). */
  lemma StatusReflectsValidity(dataRows: seq<Entry>, totalRows: seq<TotalRow>)
    ensures Validate(dataRows, totalRows).valid <==>
      !Contains(Validate(dataRows, totalRows).summary.status, ErrorStatus)
  {
    var v := Validate(dataRows, totalRows);
    if RowMaxima(dataRows) == [] {
      ContainsPrefix(v.summary.status, ErrorStatus);
    } else {
      VerdictMatchesValidity(v.difference);
    }
  }

  // ---------------------------------------------------------------------
  // Properties of the whole report
  // ---------------------------------------------------------------------

  /** `process_financial_report` fails on empty text and on text without
      amounts; a single amount-bearing line becomes the total row and leaves
      nothing to add up, which the validation reports as an error. */
  lemma ReportOutcome(filePath: string, rawText: string)
    ensures rawText == [] ==> ProcessFinancialReport(filePath, rawText) == Failed(NoTextError)
    ensures rawText != [] && FinancialData(rawText) == [] ==>
      ProcessFinancialReport(filePath, rawText) == Failed(NoAmountsError)
    ensures rawText != [] && |FinancialData(rawText)| == 1 ==>
      var r := ProcessFinancialReport(filePath, rawText);
      && r.Processed? && r.structure.dataRows == []
      && |r.structure.totalRows| == 1 && r.structure.totalRows[0].entry.amounts == FinancialData(rawText)[0].amounts
      && !r.validation.valid && r.validation.summary.status == ErrorStatus
  {
    if rawText != [] && |FinancialData(rawText)| == 1 {
      var data := FinancialData(rawText);
      ClassifyTotal(data);
      ClassifyPartition(data);
      ValidateFacts(Classify(data).dataRows, Classify(data).totalRows);
    }
  }

  /** The facts about extracted entries that the later stages use. */
  lemma FinancialDataWellFormed(text: string)
    ensures InLineOrder(FinancialData(text))
    ensures forall i :: 0 <= i < |FinancialData(text)| ==> WellFormed(FinancialData(text)[i])
  {
    FinancialDataFacts(text);
  }

  /** Two amounts within 10 of each other. */
  predicate WithinTolerance(a: real, b: real)
  {
    a - b <= Tolerance && b - a <= Tolerance
  }

  /** The tolerance test on the absolute difference is `WithinTolerance`; a
      one-step helper for `ValidateClassified`. */
  lemma AbsWithinTolerance(a: real, b: real)
    ensures Abs(a - b) <= Tolerance <==> WithinTolerance(a, b)
  {
  }

  /** On well-formed entries in line order, with two or more of them, the
      validation of the classified entries compares the sum of the largest
      amount of every entry but the total row with the total row's largest
      amount, and is valid exactly when they are within 10. */
  lemma ValidateClassified(data: seq<Entry>)
    requires |data| >= 2 && InLineOrder(data)
    requires forall i :: 0 <= i < |data| ==> WellFormed(data[i])
    ensures var t := TotalIndex(data);
      var v := Validate(Classify(data).dataRows, Classify(data).totalRows);
      && t < |data|
      && v.reportedTotal == data[t].maxAmount
      && v.calculatedSum == Sum(MaxAmounts(data[..t] + data[t + 1..]))
      && (v.valid <==> WithinTolerance(v.calculatedSum, v.reportedTotal))
  {
    ClassifyTotal(data);
    ClassifyPartition(data);
    var t := TotalIndex(data);
    var st := Classify(data);
    var others := data[..t] + data[t + 1..];
    forall k | 0 <= k < |others| ensures WellFormed(others[k]) {
      if k < t { assert others[k] == data[k]; } else { assert others[k] == data[k + 1]; }
    }
    RowMaximaOfWellFormed(others);
    assert RowMaxima(others) != [];
    ReportedTotalOfOne(data[t].(isTotal := true), st.totalRows[0].calculationMatches);
    ValidateFacts(others, st.totalRows);
    var v := Validate(others, st.totalRows);
    AbsWithinTolerance(v.calculatedSum, v.reportedTotal);
  }

  /** With two or more amount-bearing lines the report compares the sum of
      the largest amount of every line except the total row with the total
      row's largest amount, which is the largest amount in the text, and is
      valid exactly when they are within 10 of each other. */
  lemma ReportReconciles(filePath: string, rawText: string)
    requires rawText != [] && |FinancialData(rawText)| >= 2
    ensures var data := FinancialData(rawText);
      var r := ProcessFinancialReport(filePath, rawText);
      var t := TotalIndex(data);
      && r.Processed? && r.financialData == data
      && (forall j :: 0 <= j < |data| ==> data[j].maxAmount <= r.validation.reportedTotal)
      && r.validation.reportedTotal == data[t].maxAmount
      && r.validation.calculatedSum == Sum(MaxAmounts(data[..t] + data[t + 1..]))
      && (r.validation.valid <==> WithinTolerance(Sum(MaxAmounts(data[..t] + data[t + 1..])), data[t].maxAmount))
  {
    var data := FinancialData(rawText);
    FinancialDataWellFormed(rawText);
    ClassifyTotal(data);
    ValidateClassified(data);
  }
}
