/** `HandwritingOCR._process_single_file` and `process_batch`: one record per
    image, in page order, and the counts of the batch summary. The thread
    pool is replaced by the order in which its tasks complete, an input. */
module Batch {
  import opened Wrappers
  import opened Strings
  import opened Replies
  import opened Transcription
  import opened Sorting

  /** The record's "status": "success" or "error". */
  datatype Status = Success | Errored

  /** One record of the results list. `pdfPath` is None where the source
      stores None; `error` is present only on error records. */
  datatype FileResult = FileResult(
    imagePath: string,
    filename: string,
    transcription: string,
    pdfPath: Option<string>,
    pageNumber: int,
    status: Status,
    error: Option<string>)

  /** What the outside world does for one image: the exception `encode_image`
      raises (if any), the replies of the two model profiles, and what
      `create_individual_pdf` does (the path it returns, or the exception
      that escapes it). */
  datatype PageOracle = PageOracle(
    encodeError: Option<string>,
    primary: seq<Reply>,
    fallback: seq<Reply>,
    pdf: Result<string, string>)

  /** The oracle has a reply for every attempt the default budget allows. */
  predicate Supplies(o: PageOracle)
  {
    DefaultMaxRetries < |o.primary| && DefaultMaxRetries < |o.fallback|
  }

  function ErrorText(message: string): string
  {
    "[Error: " + message + "]"
  }

  function ErrorRecord(path: string, page: int, message: string): FileResult
  {
    FileResult(path, BaseName(path), ErrorText(message), None, page, Errored, Some(message))
  }

  /** What `transcribe_image(path)` gives with the default budget: the text,
      or the exception it lets through. */
  function PageText(path: string, o: PageOracle): Result<string, string>
    requires Supplies(o)
  {
    if o.encodeError.Some? then Err(o.encodeError.value)
    else Ok(Render(Transcribe(o.primary, o.fallback, DefaultMaxRetries).result, BaseName(path), DefaultMaxRetries))
  }

  /** What the two steps of one file produced: the transcription (or its
      exception) and the PDF path (or its exception). */
  datatype PageEffects = PageEffects(text: Result<string, string>, pdf: Result<string, string>)

  function Effects(path: string, o: PageOracle): PageEffects
    requires Supplies(o)
  {
    PageEffects(PageText(path, o), o.pdf)
  }

  /** The record for one image: a success record when both the transcription
      and the PDF step return, an error record with the first exception
      otherwise. */
  function FileOutcome(path: string, page: int, e: PageEffects): (r: FileResult)
    ensures r.imagePath == path && r.filename == BaseName(path) && r.pageNumber == page
  {
    match e.text
    case Err(msg) => ErrorRecord(path, page, msg)
    case Ok(t) =>
      match e.pdf
      case Err(msg) => ErrorRecord(path, page, msg)
      case Ok(p) => FileResult(path, BaseName(path), t, Some(p), page, Success, None)
  }

  /** The two record shapes: a success record carries the transcription and
      the PDF path; an error record carries `[Error: msg]`, no PDF path, and
      the message of the first exception, from transcription or from the PDF
      step. */
  lemma RecordShapes(path: string, page: int, e: PageEffects)
    ensures var r := FileOutcome(path, page, e);
      && (r.status == Success <==> e.text.Ok? && e.pdf.Ok?)
      && (r.status == Success ==>
            r.transcription == e.text.value && r.pdfPath == Some(e.pdf.value) && r.error.None?)
      && (r.status == Errored ==>
            r.pdfPath.None? && r.error.Some? && r.transcription == ErrorText(r.error.value)
            && r.error.value == if e.text.Err? then e.text.error else e.pdf.error)
  {
  }

  /** `_process_single_file`. */
  method ProcessSingleFile(path: string, page: int, o: PageOracle) returns (r: FileResult)
    requires Supplies(o)
    ensures r == FileOutcome(path, page, Effects(path, o))
  {
    var filename := BaseName(path);
    var transcription, _, _ := TranscribeImage(path, o.encodeError, o.primary, o.fallback, DefaultMaxRetries);
    if transcription.Err? {
      return FileResult(path, filename, ErrorText(transcription.error), None, page, Errored, Some(transcription.error));
    }
    match o.pdf
    case Err(e) =>
      return FileResult(path, filename, ErrorText(e), None, page, Errored, Some(e));
    case Ok(pdfPath) =>
      return FileResult(path, filename, transcription.value, Some(pdfPath), page, Success, None);
  }

  /** A page whose transcription ended in a bracketed sentinel is still a
      success record, as long as the PDF was written. */
  lemma SentinelIsSuccess(path: string, page: int, o: PageOracle)
    requires Supplies(o) && o.encodeError.None? && o.pdf.Ok?
    requires !Transcribe(o.primary, o.fallback, DefaultMaxRetries).result.Transcribed?
    ensures var r := FileOutcome(path, page, Effects(path, o));
      r.status == Success && r.transcription[0] == '[' && r.transcription[|r.transcription| - 1] == ']'
  {
  }

  // ---------------------------------------------------------------------
  // Results in page order

  predicate AllSupply(oracles: seq<PageOracle>)
  {
    forall i :: 0 <= i < |oracles| ==> Supplies(oracles[i])
  }

  /** What each file's processing produces, in list order. */
  function AllEffects(paths: seq<string>, oracles: seq<PageOracle>): (es: seq<PageEffects>)
    requires |oracles| == |paths| && AllSupply(oracles)
    ensures |es| == |paths|
    ensures forall i :: 0 <= i < |paths| ==> es[i] == Effects(paths[i], oracles[i])
  {
    if paths == [] then []
    else
      var n := |paths|;
      AllEffects(paths[..n - 1], oracles[..n - 1]) + [Effects(paths[n - 1], oracles[n - 1])]
  }

  /** The records of every image, in list order: image `i` is page `i + 1`. */
  function AllOutcomes(paths: seq<string>, effects: seq<PageEffects>): (rs: seq<FileResult>)
    requires |effects| == |paths|
    ensures |rs| == |paths|
    ensures forall i :: 0 <= i < |paths| ==> rs[i] == FileOutcome(paths[i], i + 1, effects[i])
  {
    if paths == [] then []
    else
      var n := |paths|;
      AllOutcomes(paths[..n - 1], effects[..n - 1]) + [FileOutcome(paths[n - 1], n, effects[n - 1])]
  }

  function PageKey(r: FileResult): int
  {
    r.pageNumber
  }

  /** Page numbers strictly increase along the records of a batch. */
  lemma PagesIncrease(paths: seq<string>, effects: seq<PageEffects>)
    requires |effects| == |paths|
    ensures StrictlyIncreasing(AllOutcomes(paths, effects), PageKey)
  {
  }

  // ---------------------------------------------------------------------
  // The summary

  /** The PDF paths of the records that have a non-empty one, in order. */
  function PdfPaths(rs: seq<FileResult>): (paths: seq<string>)
    ensures |paths| <= |rs|
  {
    if rs == [] then []
    else
      var r := rs[|rs| - 1];
      PdfPaths(rs[..|rs| - 1]) + if r.pdfPath.Some? && r.pdfPath.value != [] then [r.pdfPath.value] else []
  }

  function CountStatus(rs: seq<FileResult>, s: Status): (n: nat)
    ensures n <= |rs|
  {
    if rs == [] then 0
    else CountStatus(rs[..|rs| - 1], s) + if rs[|rs| - 1].status == s then 1 else 0
  }

  /** The dictionary `process_batch` returns when it has files. */
  datatype BatchSummary = BatchSummary(
    pdfPaths: seq<string>,
    processedFiles: nat,
    successfulFiles: nat,
    failedFiles: nat,
    results: seq<FileResult>)

  /** What `process_batch` ends with: the summary, the error dictionary for
      an empty directory, or the exception the thread pool raises. */
  datatype BatchOutcome =
    | Completed(summary: BatchSummary)
    | NothingFound(message: string)
    | Raises(message: string)

  function Summary(paths: seq<string>, oracles: seq<PageOracle>): BatchSummary
    requires |oracles| == |paths| && AllSupply(oracles)
  {
    var rs := AllOutcomes(paths, AllEffects(paths, oracles));
    BatchSummary(PdfPaths(rs), |paths|, CountStatus(rs, Success), CountStatus(rs, Errored), rs)
  }

  /** `process_batch` on the files the directory listing found. `oracles[i]`
      answers for the `i`-th file in sorted order; `completion` is the order
      in which the thread pool's tasks finish, as positions in that order. */
  method ProcessBatch(found: seq<string>, maxWorkers: int, oracles: seq<PageOracle>, completion: seq<nat>)
    returns (out: BatchOutcome)
    requires |oracles| == |found| && AllSupply(oracles)
    requires multiset(completion) == multiset(Range(|found|))
    ensures found == [] ==> out == NothingFound("No JPEG files found")
    ensures found != [] && maxWorkers < 1 ==> out == Raises("max_workers must be greater than 0")
    ensures found != [] && maxWorkers >= 1 ==> out == Completed(Summary(SortStrings(found), oracles))
  {
    if found == [] {
      return NothingFound("No JPEG files found");
    }
    var imageFiles := SortStrings(found);
    var results, pdfPaths;
    if maxWorkers == 1 {
      results, pdfPaths := ProcessSequentially(imageFiles, oracles);
    } else {
      if maxWorkers < 1 {
        return Raises("max_workers must be greater than 0");
      }
      results, pdfPaths := ProcessConcurrently(imageFiles, oracles, completion);
    }
    var successful := CountStatus(results, Success);
    var failed := CountStatus(results, Errored);
    return Completed(BatchSummary(pdfPaths, |imageFiles|, successful, failed, results));
  }

  /** The sequential branch: one file after the other, in list order. */
  method ProcessSequentially(imageFiles: seq<string>, oracles: seq<PageOracle>)
    returns (results: seq<FileResult>, pdfPaths: seq<string>)
    requires |oracles| == |imageFiles| && AllSupply(oracles)
    ensures results == AllOutcomes(imageFiles, AllEffects(imageFiles, oracles))
    ensures pdfPaths == PdfPaths(results)
  {
    ghost var expected := AllOutcomes(imageFiles, AllEffects(imageFiles, oracles));
    results, pdfPaths := [], [];
    for i := 0 to |imageFiles|
      invariant results == expected[..i]
      invariant pdfPaths == PdfPaths(results)
    {
      var result := ProcessSingleFile(imageFiles[i], i + 1, oracles[i]);
      assert result == expected[i];
      PrefixNext(expected, i + 1);
      results := results + [result];
      if result.pdfPath.Some? && result.pdfPath.value != [] {
        pdfPaths := pdfPaths + [result.pdfPath.value];
      }
    }
    assert expected[..|imageFiles|] == expected;
  }

  /** The concurrent branch: the records are collected as the tasks
      complete, then sorted by page number. */
  method ProcessConcurrently(imageFiles: seq<string>, oracles: seq<PageOracle>, completion: seq<nat>)
    returns (results: seq<FileResult>, pdfPaths: seq<string>)
    requires |oracles| == |imageFiles| && AllSupply(oracles)
    requires multiset(completion) == multiset(Range(|imageFiles|))
    ensures results == AllOutcomes(imageFiles, AllEffects(imageFiles, oracles))
    ensures pdfPaths == PdfPaths(results)
  {
    ghost var effects := AllEffects(imageFiles, oracles);
    ghost var expected := AllOutcomes(imageFiles, effects);
    PagesIncrease(imageFiles, effects);
    SortPermuted(expected, completion, PageKey);
    var completedResults := CollectCompletions(imageFiles, oracles, completion);
    results := SortBy(completedResults, PageKey);
    pdfPaths := CollectPdfPaths(results);
  }

  /** The `as_completed` loop: one record per task, in completion order. */
  method CollectCompletions(imageFiles: seq<string>, oracles: seq<PageOracle>, completion: seq<nat>)
    returns (completedResults: seq<FileResult>)
    requires |oracles| == |imageFiles| && AllSupply(oracles)
    requires InRange(completion, |imageFiles|)
    ensures completedResults == Pick(AllOutcomes(imageFiles, AllEffects(imageFiles, oracles)), completion)
  {
    ghost var expected := AllOutcomes(imageFiles, AllEffects(imageFiles, oracles));
    completedResults := [];
    for j := 0 to |completion|
      invariant InRange(completion[..j], |expected|)
      invariant completedResults == Pick(expected, completion[..j])
    {
      PickNext(expected, completion, j);
      var i := completion[j];
      var result := ProcessSingleFile(imageFiles[i], i + 1, oracles[i]);
      assert result == expected[i];
      completedResults := completedResults + [result];
    }
    assert completion[..|completion|] == completion;
  }

  /** The loop that gathers the non-empty PDF paths, in result order. */
  method CollectPdfPaths(results: seq<FileResult>) returns (pdfPaths: seq<string>)
    ensures pdfPaths == PdfPaths(results)
  {
    pdfPaths := [];
    for k := 0 to |results|
      invariant pdfPaths == PdfPaths(results[..k])
    {
      assert results[..k + 1][..k] == results[..k];
      if results[k].pdfPath.Some? && results[k].pdfPath.value != [] {
        pdfPaths := pdfPaths + [results[k].pdfPath.value];
      }
    }
    assert results[..|results|] == results;
  }

  // ---------------------------------------------------------------------
  // Properties of the summary

  lemma {:induction false} CountsAddUp(rs: seq<FileResult>)
    ensures CountStatus(rs, Success) + CountStatus(rs, Errored) == |rs|
    decreases |rs|
  {
    if rs != [] {
      CountsAddUp(rs[..|rs| - 1]);
    }
  }

  /** Records without a PDF path contribute nothing: every listed path is the
      PDF path of a success record, when only success records carry one. */
  lemma {:induction false} PdfPathsFromSuccesses(rs: seq<FileResult>)
    requires forall k :: 0 <= k < |rs| && rs[k].status == Errored ==> rs[k].pdfPath.None?
    ensures |PdfPaths(rs)| <= CountStatus(rs, Success)
    ensures forall p :: p in PdfPaths(rs) ==>
      p != [] && exists k :: 0 <= k < |rs| && rs[k].status == Success && rs[k].pdfPath == Some(p)
    decreases |rs|
  {
    if rs != [] {
      var init := rs[..|rs| - 1];
      PdfPathsFromSuccesses(init);
      forall p | p in PdfPaths(rs)
        ensures p != [] && exists k :: 0 <= k < |rs| && rs[k].status == Success && rs[k].pdfPath == Some(p)
      {
        if p in PdfPaths(init) {
          var k :| 0 <= k < |init| && init[k].status == Success && init[k].pdfPath == Some(p);
          assert rs[k] == init[k];
        } else {
          assert rs[|rs| - 1].pdfPath == Some(p);
        }
      }
    }
  }

  /** What a completed batch reports: the files in sorted order, one record
      per file with page `i + 1` for the `i`-th, success and failure counts
      that add up to the number of files, and PDF paths taken from success
      records only. */
  lemma SummarySpec(found: seq<string>, oracles: seq<PageOracle>)
    requires |oracles| == |found| && AllSupply(oracles)
    ensures var paths := SortStrings(found);
      var s := Summary(paths, oracles);
      && SortedStrings(paths) && multiset(paths) == multiset(found)
      && |s.results| == s.processedFiles == |found|
      && (forall i :: 0 <= i < |paths| ==>
            s.results[i].imagePath == paths[i] && s.results[i].pageNumber == i + 1)
      && s.successfulFiles + s.failedFiles == s.processedFiles
      && |s.pdfPaths| <= s.successfulFiles
      && (forall p :: p in s.pdfPaths ==>
            exists k :: 0 <= k < |s.results| && s.results[k].status == Success && s.results[k].pdfPath == Some(p))
  {
    var paths := SortStrings(found);
    var effects := AllEffects(paths, oracles);
    var rs := AllOutcomes(paths, effects);
    CountsAddUp(rs);
    forall k | 0 <= k < |rs| && rs[k].status == Errored
      ensures rs[k].pdfPath.None?
    {
      RecordShapes(paths[k], k + 1, effects[k]);
    }
    PdfPathsFromSuccesses(rs);
  }
}
