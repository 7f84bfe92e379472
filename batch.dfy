/** The batch aggregator: one summary per image, produced by the financial
    report engine, and the statistics of the consolidated report. */
module Batch {
  import opened Util
  import opened Text
  import opened Financial

  // ---------------------------------------------------------------------
  // extract_summary
  // ---------------------------------------------------------------------

  /** The `summary` dict inside a validation, each key possibly absent. */
  datatype SummaryDict = SummaryDict(status: Option<string>, message: Option<Message>)

  /** The `validation` dict of a result, each key possibly absent. */
  datatype ValidationDict = ValidationDict(
    summary: Option<SummaryDict>,
    calculatedSum: Option<real>,
    reportedTotal: Option<real>,
    difference: Option<real>,
    valid: Option<bool>,
    dataAmounts: Option<seq<real>>)

  /** A result dict as `extract_summary` reads it: one with an `error` key,
      or one whose `validation` key may be absent. */
  datatype ResultDict = ErrorResult(error: string) | ReportResult(validation: Option<ValidationDict>)

  /** One summarised image. An error summary has no `data_amounts` key,
      which is `[]` here. */
  datatype Summary = Summary(
    filename: string,
    status: string,
    message: Message,
    calculatedSum: real,
    reportedTotal: real,
    difference: real,
    valid: bool,
    dataAmounts: seq<real>)

  const UnknownStatus: string := "⚠️ DESCONOCIDO"
  const NotAvailable: string := "No disponible"
  const ProcessingErrorPrefix: string := "Error procesando imagen: "

  /** A dict lookup with a default, on a key modelled as an `Option`. */
  function Get<T>(o: Option<T>, default: T): (r: T)
    ensures o.Some? ==> r == o.value
    ensures o.None? ==> r == default
  {
    if o.Some? then o.value else default
  }

  /** The summary of a failed image: its error message and nothing computed. */
  function ErrorSummary(filename: string, message: string): Summary
  {
    Summary(filename, ErrorStatus, Note(message), 0.0, 0.0, 0.0, false, [])
  }

  /** `extract_summary(result, filename)`. */
  function ExtractSummary(result: ResultDict, filename: string): Summary
  {
    match result
    case ErrorResult(error) => ErrorSummary(filename, error)
    case ReportResult(v) =>
      var validation := Get(v, ValidationDict(None, None, None, None, None, None));
      var summaryInfo := Get(validation.summary, SummaryDict(None, None));
      Summary(filename,
              Get(summaryInfo.status, UnknownStatus),
              Get(summaryInfo.message, Note(NotAvailable)),
              Get(validation.calculatedSum, 0.0),
              Get(validation.reportedTotal, 0.0),
              Get(validation.difference, 0.0),
              Get(validation.valid, false),
              Get(validation.dataAmounts, []))
  }

  /** The dict `process_financial_report` returns, as `extract_summary` sees
      it: every key of a completed validation is present. */
  function AsResultDict(report: Report): ResultDict
  {
    match report
    case Failed(error) => ErrorResult(error)
    case Processed(_, _, _, _, v) =>
      ReportResult(Some(ValidationDict(
        Some(SummaryDict(Some(v.summary.status), Some(v.summary.message))),
        Some(v.calculatedSum), Some(v.reportedTotal), Some(v.difference),
        Some(v.valid), Some(v.dataAmounts))))
  }

  /** A path separator of `ntpath`, the `os.path` of the Windows machine
      the configured image directory lives on. */
  predicate IsSep(c: char)
  {
    c == '\\' || c == '/'
  }

  /** `os.path.basename` as `ntpath` computes it: what follows the last
      separator, or, in a path without one, what follows a drive `X:`. */
  function BaseName(path: string): string
  {
    var i := NameStart(path, |path|);
    if i == 0 && |path| >= 2 && path[1] == ':' then path[2..] else path[i..]
  }

  /** Where the run of non-separator characters that ends at `j` starts. */
  function NameStart(path: string, j: nat): (i: nat)
    requires j <= |path|
    ensures i <= j
    ensures forall k :: i <= k < j ==> !IsSep(path[k])
    ensures i == 0 || IsSep(path[i - 1])
  {
    if j > 0 && !IsSep(path[j - 1]) then NameStart(path, j - 1) else j
  }

  /** The base name is a suffix of the path without a separator; what it
      leaves off ends in a separator, or is a drive `X:` in front of a path
      that has no separator at all. */
  lemma BaseNameFacts(path: string)
    ensures forall k :: 0 <= k < |BaseName(path)| ==> !IsSep(BaseName(path)[k])
    ensures |BaseName(path)| <= |path| && path[|path| - |BaseName(path)|..] == BaseName(path)
    ensures var cut := |path| - |BaseName(path)|;
      cut > 0 ==>
        || IsSep(path[cut - 1])
        || (cut == 2 && path[1] == ':' && forall k :: 0 <= k < |path| ==> !IsSep(path[k]))
    ensures (forall k :: 0 <= k < |path| ==> !IsSep(path[k])) && !(|path| >= 2 && path[1] == ':') ==>
      BaseName(path) == path
    ensures (forall k :: 0 <= k < |path| ==> !IsSep(path[k])) && |path| >= 2 && path[1] == ':' ==>
      BaseName(path) == path[2..]
  {
    var i := NameStart(path, |path|);
    if i == 0 && |path| >= 2 && path[1] == ':' {
      assert forall k :: 0 <= k < |path| - 2 ==> BaseName(path)[k] == path[2 + k];
    } else {
      assert forall k :: 0 <= k < |path| - i ==> BaseName(path)[k] == path[i + k];
      if i == 0 {
        assert path[0..] == path;
      } else {
        assert IsSep(path[i - 1]);
      }
    }
  }

  // ---------------------------------------------------------------------
  // process_all_images
  // ---------------------------------------------------------------------

  /** What `process_financial_report` does for one image: return its
      result, or raise an exception with a message. */
  datatype Outcome = Returned(report: Report) | Raised(message: string)

  /** The summary recorded for one image, given how `process` treats it. */
  function SummaryFor(imagePath: string, process: string -> Outcome): Summary
  {
    match process(imagePath)
    case Returned(result) => ExtractSummary(AsResultDict(result), BaseName(imagePath))
    case Raised(message) => ErrorSummary(BaseName(imagePath), ProcessingErrorPrefix + message)
  }

  /** The summaries of a list of images, in order. */
  function Summaries(imageFiles: seq<string>, process: string -> Outcome): seq<Summary>
  {
    if imageFiles == [] then []
    else Summaries(imageFiles[..|imageFiles| - 1], process) + [SummaryFor(imageFiles[|imageFiles| - 1], process)]
  }

  /** A completed report is valid exactly when its status has no error marker. */
  predicate StatusMatchesValidity(report: Report)
  {
    report.Processed? ==> (report.validation.valid <==> !IsErrorStatus(report.validation.summary.status))
  }

  /** Every report `process` returns is like the engine's: valid exactly
      when its status has no error marker. */
  ghost predicate EngineLike(process: string -> Outcome)
  {
    forall p :: process(p).Returned? ==> StatusMatchesValidity(process(p).report)
  }

  /** Every summary is valid exactly when its status has no error marker. */
  predicate Consistent(results: seq<Summary>)
  {
    forall k :: 0 <= k < |results| ==> (results[k].valid <==> !IsErrorStatus(results[k].status))
  }

  class BatchValidator {
    /** The summaries gathered so far, across calls. */
    var results: seq<Summary>

    constructor ()
      ensures results == []
    {
      results := [];
    }

    /** `process_all_images` over the image list `find_all_images` returns:
        one summary per image, in order, appended to the earlier ones. */
    method ProcessAllImages(imageFiles: seq<string>, process: string -> Outcome)
      modifies this
      ensures results == old(results) + Summaries(imageFiles, process)
      ensures EngineLike(process) && Consistent(old(results)) ==> Consistent(results)
    {
      if imageFiles == [] {
        return;
      }
      var i := 0;
      while i < |imageFiles|
        invariant i <= |imageFiles|
        invariant results == old(results) + Summaries(imageFiles[..i], process)
      {
        assert imageFiles[..i + 1][..i] == imageFiles[..i];
        var imagePath := imageFiles[i];
        var filename := BaseName(imagePath);
        match process(imagePath) {
          case Returned(result) =>
            var summary := ExtractSummary(AsResultDict(result), filename);
            results := results + [summary];
          case Raised(message) =>
            var errorSummary := ErrorSummary(filename, ProcessingErrorPrefix + message);
            results := results + [errorSummary];
        }
        i := i + 1;
      }
      assert imageFiles[..i] == imageFiles;
      if EngineLike(process) && Consistent(old(results)) {
        SummariesConsistent(imageFiles, process);
        ConsistentAppend(old(results), Summaries(imageFiles, process));
      }
    }
  }

  // ---------------------------------------------------------------------
  // generate_consolidated_report: the statistics
  // ---------------------------------------------------------------------

  /** The marker the report looks for, as a substring, to count processing errors. */
  const ErrorMarker: string := "❌ ERROR"

  predicate IsErrorStatus(status: string)
  {
    Contains(status, ErrorMarker)
  }

  /** `valid_reports`. */
  function ValidCount(results: seq<Summary>): nat
  {
    if results == [] then 0
    else ValidCount(results[..|results| - 1]) + (if results[|results| - 1].valid then 1 else 0)
  }

  /** `invalid_reports`: neither valid nor carrying the error marker. */
  function InvalidCount(results: seq<Summary>): nat
  {
    if results == [] then 0
    else
      var r := results[|results| - 1];
      InvalidCount(results[..|results| - 1]) + (if !r.valid && !IsErrorStatus(r.status) then 1 else 0)
  }

  /** `error_reports`: carrying the error marker, valid or not. */
  function ErrorCount(results: seq<Summary>): nat
  {
    if results == [] then 0
    else ErrorCount(results[..|results| - 1]) + (if IsErrorStatus(results[|results| - 1].status) then 1 else 0)
  }

  /** The summaries counted both as valid and as errors. */
  function ValidErrorCount(results: seq<Summary>): nat
  {
    if results == [] then 0
    else
      var r := results[|results| - 1];
      ValidErrorCount(results[..|results| - 1]) + (if r.valid && IsErrorStatus(r.status) then 1 else 0)
  }

  /** `financial_errors`: the summaries that are neither valid nor errors, in order. */
  function FinancialErrors(results: seq<Summary>): seq<Summary>
  {
    if results == [] then []
    else
      var r := results[|results| - 1];
      FinancialErrors(results[..|results| - 1]) + (if !r.valid && !IsErrorStatus(r.status) then [r] else [])
  }

  function Differences(results: seq<Summary>): seq<real>
  {
    if results == [] then [] else Differences(results[..|results| - 1]) + [results[|results| - 1].difference]
  }

  /** `total_error_amount`. */
  function TotalDiscrepancy(results: seq<Summary>): real
  {
    Sum(Differences(FinancialErrors(results)))
  }

  /** The success rate, in percent, of a non-empty list of summaries. The
      report is only generated after at least one image was found, so the
      division by the number of images never sees zero. */
  function SuccessRate(results: seq<Summary>): real
    requires results != [] // process_all_images returns early when no image is found
  {
    ValidCount(results) as real / |results| as real * 100.0
  }

  /** `error_percentage` of one summary: 0 unless the reported total is positive. */
  function ErrorPercentage(r: Summary): real
  {
    if r.reportedTotal > 0.0 then r.difference / r.reportedTotal * 100.0 else 0.0
  }

  // ---------------------------------------------------------------------
  // Properties of the summaries
  // ---------------------------------------------------------------------

  /** A result with an `error` key gives an invalid summary with status
      `❌ ERROR`, zero amounts and the error as its message. */
  lemma ErrorResultSummary(error: string, filename: string)
    ensures var s := ExtractSummary(ErrorResult(error), filename);
      && s.filename == filename && s.status == ErrorStatus && s.message == Note(error)
      && !s.valid && s.calculatedSum == 0.0 && s.reportedTotal == 0.0 && s.difference == 0.0
      && IsErrorStatus(s.status)
  {
    ContainsPrefix(ErrorStatus, ErrorMarker);
  }

  /** Any other result has each key copied from its validation when
      present, and the default value when absent. */
  lemma ReportResultSummary(v: Option<ValidationDict>, filename: string)
    ensures var s := ExtractSummary(ReportResult(v), filename);
      && s.filename == filename
      && (v.None? ==> s == Summary(filename, UnknownStatus, Note(NotAvailable), 0.0, 0.0, 0.0, false, []))
      && (v.Some? && v.value.valid.Some? ==> s.valid == v.value.valid.value)
      && (v.Some? && v.value.valid.None? ==> !s.valid)
      && (v.Some? && v.value.calculatedSum.Some? ==> s.calculatedSum == v.value.calculatedSum.value)
      && (v.Some? && v.value.calculatedSum.None? ==> s.calculatedSum == 0.0)
      && (v.Some? && v.value.reportedTotal.Some? ==> s.reportedTotal == v.value.reportedTotal.value)
      && (v.Some? && v.value.reportedTotal.None? ==> s.reportedTotal == 0.0)
      && (v.Some? && v.value.difference.Some? ==> s.difference == v.value.difference.value)
      && (v.Some? && v.value.difference.None? ==> s.difference == 0.0)
      && (v.Some? && v.value.dataAmounts.Some? ==> s.dataAmounts == v.value.dataAmounts.value)
      && (v.Some? && v.value.dataAmounts.None? ==> s.dataAmounts == [])
      && (v.Some? && v.value.summary.Some? && v.value.summary.value.message.Some? ==>
            s.message == v.value.summary.value.message.value)
      && (v.Some? && (v.value.summary.None? || v.value.summary.value.message.None?) ==> s.message == Note(NotAvailable))
      && (v.Some? && v.value.summary.Some? && v.value.summary.value.status.Some? ==>
            s.status == v.value.summary.value.status.value)
      && (v.Some? && (v.value.summary.None? || v.value.summary.value.status.None?) ==> s.status == UnknownStatus)
  {
  }

  /** The summary of a financial report copies its validation, so the
      defaults are never used; and it is valid exactly when its status has
      no error marker. */
  lemma ReportSummary(imagePath: string, rawText: string, filename: string)
    ensures var r := ProcessFinancialReport(imagePath, rawText);
      var s := ExtractSummary(AsResultDict(r), filename);
      && (r.Failed? ==> s == ErrorSummary(filename, r.error))
      && (r.Processed? ==>
            s == Summary(filename, r.validation.summary.status, r.validation.summary.message,
                         r.validation.calculatedSum, r.validation.reportedTotal, r.validation.difference,
                         r.validation.valid, r.validation.dataAmounts))
      && StatusMatchesValidity(r)
      && (s.valid <==> !IsErrorStatus(s.status))
  {
    var r := ProcessFinancialReport(imagePath, rawText);
    if r.Failed? {
      ContainsPrefix(ErrorStatus, ErrorMarker);
    } else {
      StatusReflectsValidity(r.structure.dataRows, r.structure.totalRows);
    }
  }

  /** The financial report engine is engine-like, whatever text `ocr`
      recognises in each image and whichever images `raised` makes fail
      with an exception. */
  lemma EngineIsEngineLike(ocr: string -> string, raised: string -> Option<string>)
    ensures EngineLike(p => if raised(p).Some? then Raised(raised(p).value) else Returned(ProcessFinancialReport(p, ocr(p))))
  {
    var process := p => if raised(p).Some? then Raised(raised(p).value) else Returned(ProcessFinancialReport(p, ocr(p)));
    forall p | process(p).Returned?
      ensures StatusMatchesValidity(process(p).report)
    {
      ReportSummary(p, ocr(p), BaseName(p));
    }
  }

  /** The statuses the report engine uses: the mismatch status carries the
      error marker, so the report counts a wrong calculation as a processing
      error; the two correct statuses do not. */
  lemma ErrorMarkerStatuses()
    ensures IsErrorStatus(ErrorStatus)
    ensures IsErrorStatus(MismatchStatus)
    ensures !IsErrorStatus(ExactStatus)
    ensures !IsErrorStatus(RoundingStatus)
  {
    ContainsPrefix(ErrorStatus, ErrorMarker);
    assert MismatchStatus[..|ErrorMarker|] == ErrorMarker;
    ContainsPrefix(MismatchStatus, ErrorMarker);
    assert ErrorMarker[0] == '❌';
    assert '❌' !in ExactStatus;
    NotContainsFirst(ExactStatus, ErrorMarker);
    assert '❌' !in RoundingStatus;
    NotContainsFirst(RoundingStatus, ErrorMarker);
  }

  /** A batch's summaries: one per image, in order, named after the image. */
  lemma {:induction false} SummariesFacts(imageFiles: seq<string>, process: string -> Outcome)
    ensures |Summaries(imageFiles, process)| == |imageFiles|
    ensures forall k :: 0 <= k < |imageFiles| ==>
      Summaries(imageFiles, process)[k] == SummaryFor(imageFiles[k], process) &&
      Summaries(imageFiles, process)[k].filename == BaseName(imageFiles[k])
  {
    if imageFiles != [] {
      var init := imageFiles[..|imageFiles| - 1];
      SummariesFacts(init, process);
      assert forall k :: 0 <= k < |init| ==> init[k] == imageFiles[k];
    }
  }

  /** Every summary of a batch processed by an engine-like `process` is
      valid exactly when it has no error marker. */
  lemma {:induction false} SummariesConsistent(imageFiles: seq<string>, process: string -> Outcome)
    requires EngineLike(process)
    ensures Consistent(Summaries(imageFiles, process))
  {
    if imageFiles != [] {
      var init := imageFiles[..|imageFiles| - 1];
      var path := imageFiles[|imageFiles| - 1];
      SummariesConsistent(init, process);
      ContainsPrefix(ErrorStatus, ErrorMarker);
      assert Consistent([SummaryFor(path, process)]) by {
        if process(path).Returned? {
          assert StatusMatchesValidity(process(path).report);
        }
      }
      ConsistentAppend(Summaries(init, process), [SummaryFor(path, process)]);
    }
  }

  lemma ConsistentAppend(a: seq<Summary>, b: seq<Summary>)
    requires Consistent(a) && Consistent(b)
    ensures Consistent(a + b)
  {
    assert forall k :: |a| <= k < |a + b| ==> (a + b)[k] == b[k - |a|];
  }

  /** Every summary is counted once among valid, invalid and errors, except
      those both valid and marked as errors, which are counted twice. */
  lemma {:induction false} CountsAddUp(results: seq<Summary>)
    ensures ValidCount(results) + InvalidCount(results) + ErrorCount(results) == |results| + ValidErrorCount(results)
  {
    if results != [] {
      CountsAddUp(results[..|results| - 1]);
    }
  }

  /** No summary is both valid and marked as an error exactly when
      `ValidErrorCount` is zero. */
  lemma {:induction false} NoValidErrors(results: seq<Summary>)
    ensures ValidErrorCount(results) == 0 <==>
      forall k :: 0 <= k < |results| ==> !(results[k].valid && IsErrorStatus(results[k].status))
  {
    if results != [] {
      var init := results[..|results| - 1];
      NoValidErrors(init);
      assert forall k :: 0 <= k < |init| ==> init[k] == results[k];
    }
  }

  /** When no valid summary has the error marker, the three counts add up
      to the number of summaries. */
  lemma CountsPartition(results: seq<Summary>)
    requires forall k :: 0 <= k < |results| ==> results[k].valid ==> !IsErrorStatus(results[k].status)
    ensures ValidCount(results) + InvalidCount(results) + ErrorCount(results) == |results|
  {
    CountsAddUp(results);
    NoValidErrors(results);
  }

  /** `financial_errors` holds exactly the summaries that are neither valid
      nor marked, in order, and `invalid_reports` is its length. */
  lemma {:induction false} FinancialErrorsFacts(results: seq<Summary>)
    ensures |FinancialErrors(results)| == InvalidCount(results)
    ensures forall r :: r in FinancialErrors(results) <==> r in results && !r.valid && !IsErrorStatus(r.status)
  {
    if results != [] {
      var init := results[..|results| - 1];
      FinancialErrorsFacts(init);
      assert results == init + [results[|results| - 1]];
    }
  }

  /** In a consistent list nothing is counted as invalid, and there is no
      discrepancy to total: every invalid summary is counted as an error. */
  lemma {:induction false} ConsistentHasNoFinancialErrors(results: seq<Summary>)
    requires Consistent(results)
    ensures FinancialErrors(results) == []
    ensures InvalidCount(results) == 0
    ensures TotalDiscrepancy(results) == 0.0
    ensures ValidCount(results) + ErrorCount(results) == |results|
  {
    if results != [] {
      var init := results[..|results| - 1];
      assert forall k :: 0 <= k < |init| ==> init[k] == results[k];
      ConsistentHasNoFinancialErrors(init);
      assert Consistent(init);
    }
    CountsPartition(results);
  }

  /** For any batch the financial report engine summarises, the report
      shows no calculation errors: a wrong total gets the mismatch status,
      which carries the error marker. */
  lemma BatchStatistics(imageFiles: seq<string>, process: string -> Outcome)
    requires EngineLike(process)
    ensures InvalidCount(Summaries(imageFiles, process)) == 0
    ensures TotalDiscrepancy(Summaries(imageFiles, process)) == 0.0
    ensures ValidCount(Summaries(imageFiles, process)) + ErrorCount(Summaries(imageFiles, process)) == |imageFiles|
  {
    SummariesConsistent(imageFiles, process);
    SummariesFacts(imageFiles, process);
    ConsistentHasNoFinancialErrors(Summaries(imageFiles, process));
  }

  /** The total discrepancy adds the differences of every summary that is
      neither valid nor marked, and is not negative when no difference is. */
  lemma TotalDiscrepancyFacts(results: seq<Summary>, r: Summary)
    ensures TotalDiscrepancy(results + [r]) ==
      TotalDiscrepancy(results) + (if !r.valid && !IsErrorStatus(r.status) then r.difference else 0.0)
    ensures (forall k :: 0 <= k < |results| ==> results[k].difference >= 0.0) ==> TotalDiscrepancy(results) >= 0.0
  {
    var all := results + [r];
    assert all[..|all| - 1] == results;
    if !r.valid && !IsErrorStatus(r.status) {
      assert Differences(FinancialErrors(all)) == Differences(FinancialErrors(results)) + [r.difference];
    } else {
      assert FinancialErrors(all) == FinancialErrors(results) + [];
      assert FinancialErrors(results) + [] == FinancialErrors(results);
    }
    if forall k :: 0 <= k < |results| ==> results[k].difference >= 0.0 {
      FinancialErrorsFacts(results);
      DifferencesNonNegative(FinancialErrors(results), results);
      SumNonNegative(Differences(FinancialErrors(results)));
    }
  }

  lemma {:induction false} DifferencesNonNegative(errors: seq<Summary>, results: seq<Summary>)
    requires forall r :: r in errors ==> r in results
    requires forall k :: 0 <= k < |results| ==> results[k].difference >= 0.0
    ensures forall k :: 0 <= k < |Differences(errors)| ==> Differences(errors)[k] >= 0.0
  {
    if errors != [] {
      DifferencesNonNegative(errors[..|errors| - 1], results);
      assert errors[|errors| - 1] in errors;
    }
  }

  /** The success rate lies between 0 and 100. */
  lemma {:induction false} SuccessRateBounds(results: seq<Summary>)
    requires results != []
    ensures 0.0 <= SuccessRate(results) <= 100.0
  {
    ValidCountBound(results);
  }

  lemma {:induction false} ValidCountBound(results: seq<Summary>)
    ensures ValidCount(results) <= |results|
  {
    if results != [] {
      ValidCountBound(results[..|results| - 1]);
    }
  }

  /** The error percentage is 0 when the reported total is not positive, and
      otherwise the difference as a percentage of it. */
  lemma ErrorPercentageFacts(r: Summary)
    ensures r.reportedTotal <= 0.0 ==> ErrorPercentage(r) == 0.0
    ensures r.reportedTotal > 0.0 ==> ErrorPercentage(r) * r.reportedTotal == r.difference * 100.0
    ensures r.difference >= 0.0 ==> ErrorPercentage(r) >= 0.0
  {
  }
}
